/**
 The users of log.lock (kernel/log.c): any number of processes in begin_op, log_write and end_op, on the sleep/wakeup
 protocol of module Sleep and the accounting of module Admission. log.lock is the protocol's lk, and the address of the
 log its only channel. The commit itself runs without the lock.
 */
module LogUsers {
  import opened Common
  import opened Sleep
  import A = Admission
  import J = Journal
  import opened LogFormat

  datatype Chan = LogAddr

  datatype Pc =
    | Idle          // in no operation
    | Asking        // in begin_op's loop
    | Admitted      // in begin_op, counted as outstanding
    | Busy          // in an operation
    | Logging       // in log_write, before the block is entered
    | Logged        // and after that
    | Ending        // in end_op, still outstanding
    | Started       // in end_op, has set committing
    | Commits       // in commit, without the lock
    | Erased        // at its end
    | Finishing     // in end_op after the commit, with the lock
    | Wakes         // before the wakeup of end_op
    | Woke          // in or after it

  datatype Sys = Sys(k: Kernel<Chan>, pc: seq<Pc>, a: A.State)

  datatype Op =
    | Ask(i: nat)
    | Wait(i: nat)
    | Enter(i: nat)
    | EnterDone(i: nat)
    | BeginLog(i: nat)
    | Log(i: nat, b: nat)
    | LogDone(i: nat)
    | BeginEnd(i: nat)
    | End(i: nat)
    | StartCommit(i: nat)                // releases the lock to commit
    | Erase(i: nat)                      // commit empties the header
    | EndCommit(i: nat)                  // takes the lock again
    | Finish(i: nat)
    | Wake(i: nat)
    | Leave(i: nat)
    | Inner(s: Step<Chan>)               // a step inside sleep or wakeup, of the scheduler, or not involving the lock

  predicate IsInner(s: Step<Chan>) {
    s.LockSelf? || s.Fall? || s.Doze? || s.Switch? || s.Schedule? || s.Tidy? || s.Reacquire?
    || s.WakeNext? || s.WakeDone? || s.Elsewhere? || s.Kill?
  }

  /** An operation may begin. */
  predicate Open(a: A.State) {
    !a.committing && J.Admits(a.lh, a.outstanding)
  }

  /** Sleeping in begin_op is right while no operation may begin. */
  function Good(a: A.State): set<Chan> {
    if Open(a) then {} else {LogAddr}
  }

  predicate At(y: Sys, i: nat, pc: Pc) {
    i < |y.pc| && y.pc[i] == pc
  }

  predicate InLk(y: Sys, i: nat) {
    i < |y.k.procs| && y.k.procs[i].phase.In?
  }

  function Actor(op: Op): nat {
    if op.Inner? then op.s.i else op.i
  }

  /** What the step does in the protocol; emptying the header is none of its business. */
  function KernelStep(y: Sys, op: Op): Option<Step<Chan>> {
    match op
    case Ask(i) => Some(Acquire(i))
    case Wait(i) => Some(CallSleep(i, LogAddr))
    case Enter(i) => Some(Owe(i, {}))
    case EnterDone(i) => Some(Release(i))
    case BeginLog(i) => Some(Acquire(i))
    case Log(i, b) => Some(Owe(i, {}))
    case LogDone(i) => Some(Release(i))
    case BeginEnd(i) => Some(Acquire(i))
    case End(i) => Some(Owe(i, if y.a.outstanding == 1 then {} else {LogAddr}))
    case StartCommit(i) => Some(Release(i))
    case Erase(i) => None
    case EndCommit(i) => Some(Acquire(i))
    case Finish(i) => Some(Owe(i, {LogAddr}))
    case Wake(i) => Some(CallWakeup(i, LogAddr))
    case Leave(i) => Some(Release(i))
    case Inner(s) => Some(s)
  }

  /** What it does in the accounting. */
  function CountStep(op: Op): Option<A.Step> {
    match op
    case Enter(i) => Some(A.Begin(i))
    case Log(i, b) => Some(A.Log(i, b))
    case End(i) => Some(A.End(i))
    case Erase(i) => Some(A.Erase)
    case Finish(i) => Some(A.Done)
    case _ => None
  }

  predicate Guard(y: Sys, op: Op) {
    match op
    case Ask(i) => At(y, i, Idle)
    case Wait(i) => At(y, i, Asking) && !Open(y.a)
    case Enter(i) => At(y, i, Asking) && Open(y.a)
    case EnterDone(i) => At(y, i, Admitted)
    case BeginLog(i) => At(y, i, Busy)
    case Log(i, b) => At(y, i, Logging)
    case LogDone(i) => At(y, i, Logged)
    case BeginEnd(i) => At(y, i, Busy)
    case End(i) => At(y, i, Ending)
    case StartCommit(i) => At(y, i, Started)
    case Erase(i) => At(y, i, Commits)
    case EndCommit(i) => At(y, i, Erased)
    case Finish(i) => At(y, i, Finishing)
    case Wake(i) => At(y, i, Wakes)
    case Leave(i) => At(y, i, Woke)
    case Inner(s) => IsInner(s) && s.i < |y.pc|
  }

  function NextPc(y: Sys, op: Op): Pc
    requires Actor(op) < |y.pc|
  {
    match op
    case Ask(i) => Asking
    case Enter(i) => Admitted
    case EnterDone(i) => Busy
    case BeginLog(i) => Logging
    case Log(i, b) => Logged
    case LogDone(i) => Busy
    case BeginEnd(i) => Ending
    case End(i) => if y.a.outstanding == 1 then Started else Wakes
    case StartCommit(i) => Commits
    case Erase(i) => Erased
    case EndCommit(i) => Finishing
    case Finish(i) => Wakes
    case Wake(i) => Woke
    case Leave(i) => Idle
    case _ => y.pc[Actor(op)]
  }

  /** n bounds the blocks that an operation logs. */
  predicate Allowed(n: nat, y: Sys, op: Op) {
    && Guard(y, op)
    && (KernelStep(y, op).Some? ==> Enabled(y.k, KernelStep(y, op).value))
    && (CountStep(op).Some? ==> A.Enabled(n, y.a, CountStep(op).value))
  }

  function Do(n: nat, y: Sys, op: Op): Sys
    requires Allowed(n, y, op)
  {
    Sys(if KernelStep(y, op).Some? then Apply(y.k, KernelStep(y, op).value) else y.k,
        y.pc[Actor(op) := NextPc(y, op)],
        if CountStep(op).Some? then A.Apply(n, y.a, CountStep(op).value) else y.a)
  }

  // ----- the invariant

  predicate Sleeps(ph: Phase<Chan>) {
    ph.Enter? || ph.Committed? || ph.Falling? || ph.Down? || ph.Asleep? || ph.Resumed? || ph.Back?
  }

  /** The phases of the protocol in which a process can be, for each place in the three functions. */
  predicate PhaseFits(pc: Pc, ph: Phase<Chan>) {
    match pc
    case Idle => ph.Out?
    case Busy => ph.Out?
    case Commits => ph.Out?
    case Erased => ph.Out?
    case Asking => (ph.In? && ph.owes == {}) || Sleeps(ph)
    case Wakes => ph.In? && ph.owes <= {LogAddr}
    case Woke => (ph.In? && ph.owes == {}) || (ph.Waking? && ph.chan == LogAddr && ph.owes <= {LogAddr})
    case _ => ph.In? && ph.owes == {}
  }

  /** Where a process is counted in the accounting. */
  predicate CountedOk(y: Sys, i: nat)
    requires i < |y.pc|
  {
    var pc := y.pc[i];
    && (pc == Admitted || pc == Busy || pc == Logging || pc == Logged || pc == Ending <==> i in y.a.ops)
    && (Committer(pc) ==> y.a.committing)
    && (pc == Erased || pc == Finishing ==> y.a.lh == [])
  }

  predicate Committer(pc: Pc) {
    pc == Started || pc == Commits || pc == Erased || pc == Finishing
  }

  /** A commit in progress is some process's. */
  ghost predicate SomebodyCommits(y: Sys) {
    y.a.committing ==> exists i :: 0 <= i < |y.pc| && Committer(y.pc[i])
  }

  ghost predicate Invariant(n: nat, y: Sys) {
    && KernelOk(y.k) && NoLost(y.k, Good(y.a)) && A.Inv(n, y.a)
    && |y.pc| == |y.k.procs|
    && (forall i :: 0 <= i < |y.pc| ==> PhaseFits(y.pc[i], y.k.procs[i].phase) && CountedOk(y, i))
    && (forall i, j :: 0 <= i < j < |y.pc| && Committer(y.pc[i]) ==> !Committer(y.pc[j]))
    && (forall i :: i in y.a.ops ==> i < |y.pc|)
    && SomebodyCommits(y)
  }

  // ----- every step keeps it

  lemma StepPhase(n: nat, y: Sys, op: Op, j: nat)
    requires Invariant(n, y) && Allowed(n, y, op) && j < |y.pc|
    ensures var y' := Do(n, y, op);
            |y'.pc| == |y.pc| && |y'.k.procs| == |y.pc| && PhaseFits(y'.pc[j], y'.k.procs[j].phase)
  {
    hide KernelOk, NoLost, A.Inv, A.Enabled, A.Apply, CountedOk;
    assert PhaseFits(y.pc[j], y.k.procs[j].phase);
    if j != Actor(op) {
      hide PhaseFits, Apply, Enabled;
      if KernelStep(y, op).Some? {
        StepMovesOne(y.k, KernelStep(y, op).value, j);
      }
    } else if op.Inner? {
      InnerPhase(y.k, op.s, y.pc[j]);
    } else {
      OuterPhase(n, y, op);
    }
  }

  lemma InnerPhase(k: Kernel<Chan>, s: Step<Chan>, pc: Pc)
    requires IsInner(s) && Enabled(k, s) && PhaseFits(pc, k.procs[s.i].phase)
    ensures PhaseFits(pc, Apply(k, s).procs[s.i].phase)
  {
    hide Woken;
  }

  lemma OuterPhase(n: nat, y: Sys, op: Op)
    requires Allowed(n, y, op) && !op.Inner? && |y.pc| == |y.k.procs| && PhaseFits(y.pc[op.i], y.k.procs[op.i].phase)
    ensures var y' := Do(n, y, op);
            |y'.pc| == |y.pc| && |y'.k.procs| == |y.pc| && PhaseFits(y'.pc[op.i], y'.k.procs[op.i].phase)
  {
    hide Woken, A.Enabled, A.Apply;
  }

  lemma StepCounted(n: nat, y: Sys, op: Op, j: nat)
    requires Invariant(n, y) && Allowed(n, y, op) && j < |y.pc|
    ensures |Do(n, y, op).pc| == |y.pc| && CountedOk(Do(n, y, op), j)
  {
    hide KernelOk, NoLost, PhaseFits;
    assert CountedOk(y, j) && CountedOk(y, Actor(op));
    if j == Actor(op) {
      ActorCounted(n, y, op);
    } else {
      assert Committer(y.pc[Actor(op)]) ==> !Committer(y.pc[j]);
      OtherCounted(n, y, op, j);
    }
  }

  lemma ActorCounted(n: nat, y: Sys, op: Op)
    requires Allowed(n, y, op) && CountedOk(y, Actor(op)) && A.Inv(n, y.a)
    ensures |Do(n, y, op).pc| == |y.pc| && CountedOk(Do(n, y, op), Actor(op))
  {
    hide Apply, Enabled, Absorb, A.Slack;
  }

  lemma OtherCounted(n: nat, y: Sys, op: Op, j: nat)
    requires Allowed(n, y, op) && j < |y.pc| && j != Actor(op) && CountedOk(y, j) && CountedOk(y, Actor(op))
    requires y.a.committing ==> y.a.ops == map[]
    requires Committer(y.pc[Actor(op)]) ==> !Committer(y.pc[j])
    ensures |Do(n, y, op).pc| == |y.pc| && CountedOk(Do(n, y, op), j)
  {
    hide Apply, Enabled, Absorb;
  }

  lemma StepCommitter(n: nat, y: Sys, op: Op, i: nat, j: nat)
    requires Invariant(n, y) && Allowed(n, y, op) && i < j < |y.pc|
    ensures Committer(Do(n, y, op).pc[i]) ==> !Committer(Do(n, y, op).pc[j])
  {
    hide KernelOk, NoLost, Apply, Enabled, PhaseFits, Absorb;
    assert CountedOk(y, i) && CountedOk(y, j) && CountedOk(y, Actor(op));
  }

  lemma StepNoLost(n: nat, y: Sys, op: Op)
    requires Invariant(n, y) && Allowed(n, y, op)
    ensures KernelOk(Do(n, y, op).k) && NoLost(Do(n, y, op).k, Good(Do(n, y, op).a))
  {
    hide KernelOk, NoLost, A.Inv;
    if op.Erase? {
      assert CountedOk(y, op.i);
    } else {
      var s := KernelStep(y, op).value;
      StepKeepsKernel(y.k, s);
      StepKeepsNoLost(y.k, s, Good(y.a));
      if CountStep(op).Some? {
        ReadyIsOwed(n, y, op);
        WriteKeepsNoLost(Apply(y.k, s), op.i, Good(y.a), Good(Do(n, y, op).a));
      }
    }
  }

  /** What a step makes possible, the process has owed before. */
  lemma ReadyIsOwed(n: nat, y: Sys, op: Op)
    requires Invariant(n, y) && Allowed(n, y, op) && !op.Erase? && CountStep(op).Some?
    ensures KernelStep(y, op).Some? && op.i < |y.k.procs|
    ensures var ph := Apply(y.k, KernelStep(y, op).value).procs[op.i].phase;
            ph.In? && Good(y.a) - Good(Do(n, y, op).a) <= ph.owes
  {
    hide KernelOk, NoLost, PhaseFits, CountedOk;
  }

  lemma CommitterStays(n: nat, y: Sys, op: Op, i: nat)
    requires Allowed(n, y, op) && i < |y.pc| && Committer(y.pc[i])
    ensures |Do(n, y, op).pc| == |y.pc| && (Committer(Do(n, y, op).pc[i]) || op == Finish(i))
  {
    hide Apply, Enabled, A.Enabled, A.Apply, J.Admits;
  }

  /** Only the last end_op starts a commit, and then commits; only the committer ends it. */
  lemma CommittingIs(n: nat, y: Sys, op: Op)
    requires Allowed(n, y, op)
    ensures op.Finish? ==> !Do(n, y, op).a.committing
    ensures Do(n, y, op).a.committing && !y.a.committing ==>
              op.End? && op.i < |y.pc| && Do(n, y, op).pc[op.i] == Started
  {
    hide Apply, Enabled, Absorb, J.Admits;
  }

  lemma StepSomebody(n: nat, y: Sys, op: Op)
    requires SomebodyCommits(y) && Allowed(n, y, op)
    ensures SomebodyCommits(Do(n, y, op))
  {
    hide Allowed, Do;
    CommittingIs(n, y, op);
    if y.a.committing {
      var i :| 0 <= i < |y.pc| && Committer(y.pc[i]);
      CommitterStays(n, y, op, i);
    } else if op.End? && op.i < |y.pc| {
      SamePcs(n, y, op);
      assert Do(n, y, op).a.committing ==> Committer(Do(n, y, op).pc[op.i]);
    }
  }

  lemma SamePcs(n: nat, y: Sys, op: Op)
    requires Allowed(n, y, op)
    ensures |Do(n, y, op).pc| == |y.pc|
  {
    hide Apply, Enabled, A.Enabled, A.Apply, J.Admits, NextPc;
  }

  lemma StepKeeps(n: nat, y: Sys, op: Op)
    requires n <= MAXOPBLOCKS && Invariant(n, y) && Allowed(n, y, op)
    ensures Invariant(n, Do(n, y, op))
  {
    StepSomebody(n, y, op);
    hide SomebodyCommits;
    hide KernelOk, NoLost, A.Inv, PhaseFits, CountedOk, Committer, Allowed, Do;
    var y' := Do(n, y, op);
    StepSizes(n, y, op);
    StepNoLost(n, y, op);
    StepCounts(n, y, op);
    forall j | 0 <= j < |y'.pc|
      ensures PhaseFits(y'.pc[j], y'.k.procs[j].phase) && CountedOk(y', j)
    {
      StepPhase(n, y, op, j);
      StepCounted(n, y, op, j);
    }
    forall i, j | 0 <= i < j < |y'.pc| && Committer(y'.pc[i])
      ensures !Committer(y'.pc[j])
    {
      StepCommitter(n, y, op, i, j);
    }
  }

  lemma StepSizes(n: nat, y: Sys, op: Op)
    requires Allowed(n, y, op) && |y.pc| == |y.k.procs| && forall i :: i in y.a.ops ==> i < |y.pc|
    ensures |Do(n, y, op).pc| == |y.pc| && |Do(n, y, op).k.procs| == |y.pc|
    ensures forall i :: i in Do(n, y, op).a.ops ==> i < |y.pc|
  {
    hide Absorb;
  }

  lemma StepCounts(n: nat, y: Sys, op: Op)
    requires n <= MAXOPBLOCKS && A.Inv(n, y.a) && Allowed(n, y, op)
    ensures A.Inv(n, Do(n, y, op).a)
  {
    hide A.Inv, A.Enabled, A.Apply, Guard, Enabled, Apply;
    if CountStep(op).Some? {
      A.StepKeeps(n, y.a, CountStep(op).value);
    }
  }

  // ----- runs

  predicate Legal(n: nat, y: Sys, ops: seq<Op>)
    decreases |ops|, 0
  {
    ops == [] || (Legal(n, y, ops[..|ops| - 1]) && Allowed(n, After(n, y, ops[..|ops| - 1]), ops[|ops| - 1]))
  }

  function After(n: nat, y: Sys, ops: seq<Op>): Sys
    requires Legal(n, y, ops)
    decreases |ops|, 1
  {
    if ops == [] then y else Do(n, After(n, y, ops[..|ops| - 1]), ops[|ops| - 1])
  }

  /** After initlog, before any operation. */
  predicate Fresh(y: Sys) {
    && y.a == A.INIT && y.k.lk == None && |y.pc| == |y.k.procs|
    && forall i :: 0 <= i < |y.pc| ==> y.pc[i] == Idle && y.k.procs[i].phase.Out? && y.k.procs[i].chan == None
  }

  lemma {:induction false} RunKeeps(n: nat, y: Sys, ops: seq<Op>)
    requires n <= MAXOPBLOCKS && Fresh(y) && Legal(n, y, ops)
    ensures Invariant(n, After(n, y, ops))
    decreases |ops|
  {
    hide KernelOk, NoLost;
    if ops == [] {
      BootOk(y.k, Good(y.a));
      A.LogBudget(n, []);
    } else {
      RunKeeps(n, y, ops[..|ops| - 1]);
      hide Invariant, Allowed, Do;
      StepKeeps(n, After(n, y, ops[..|ops| - 1]), ops[|ops| - 1]);
    }
  }

  /** With log.lock free, a process sleeps in begin_op only while a commit is in progress or there is no room. */
  lemma SleepersHaveReason(n: nat, y: Sys, ops: seq<Op>, i: nat)
    requires n <= MAXOPBLOCKS && Fresh(y) && Legal(n, y, ops)
    requires After(n, y, ops).k.lk == None && i < |After(n, y, ops).k.procs|
    ensures var z := After(n, y, ops); WaitsOn(z.k.procs[i]).Some? ==> !Open(z.a)
  {
    hide Legal, After, KernelOk, NoLost;
    RunKeeps(n, y, ops);
    var z := After(n, y, ops);
    FreeMeansNoLost(z.k, Good(z.a));
  }

  /** So a process in begin_op that may begin can go on. */
  lemma CanGoOn(n: nat, y: Sys, ops: seq<Op>, i: nat)
    requires n <= MAXOPBLOCKS && Fresh(y) && Legal(n, y, ops)
    requires var z := After(n, y, ops); z.k.lk == None && At(z, i, Asking) && Open(z.a)
    ensures var z := After(n, y, ops);
            Enabled(z.k, Schedule(i)) || Enabled(z.k, Tidy(i)) || Enabled(z.k, Reacquire(i))
  {
    hide Legal, After, Invariant, Enabled;
    RunKeeps(n, y, ops);
    var z := After(n, y, ops);
    LockFree(n, z, i);
    SleepersHaveReason(n, y, ops, i);
    AwakeCanGoOn(z.k, i);
  }

  lemma LockFree(n: nat, z: Sys, i: nat)
    requires Invariant(n, z) && z.k.lk == None && i < |z.pc|
    ensures i < |z.k.procs| && PhaseFits(z.pc[i], z.k.procs[i].phase) && FieldsOk(z.k.procs[i])
    ensures !HoldsLk(z.k.procs[i].phase)
  {
    hide NoLost, WokenOk, A.Inv;
  }

  lemma AwakeCanGoOn(k: Kernel<Chan>, i: nat)
    requires k.lk == None && i < |k.procs| && PhaseFits(Asking, k.procs[i].phase) && FieldsOk(k.procs[i])
    requires !HoldsLk(k.procs[i].phase) && WaitsOn(k.procs[i]) == None
    ensures Enabled(k, Schedule(i)) || Enabled(k, Tidy(i)) || Enabled(k, Reacquire(i))
  {
  }

  /**
   end_op finds no commit in progress, and log_write an operation outstanding, so neither of their panics happens; at
   most one process commits, and none is in an operation then.
   */
  lemma NoPanics(n: nat, y: Sys, ops: seq<Op>, i: nat, j: nat)
    requires n <= MAXOPBLOCKS && Fresh(y) && Legal(n, y, ops) && i < |After(n, y, ops).pc| && j < |After(n, y, ops).pc|
    ensures var z := After(n, y, ops);
            && (z.pc[i] == Ending ==> !z.a.committing)
            && (z.pc[i] == Logging ==> z.a.outstanding >= 1)
            && (Committer(z.pc[i]) && Committer(z.pc[j]) ==> i == j)
            && (Committer(z.pc[i]) ==> z.a.ops == map[] && z.pc[j] != Busy)
  {
    hide Legal, After, KernelOk, NoLost, PhaseFits;
    RunKeeps(n, y, ops);
    var z := After(n, y, ops);
    assert CountedOk(z, i) && CountedOk(z, j);
    if i in z.a.ops {
      assert i in z.a.ops.Keys;
    }
  }

  // ----- nobody is stuck, and nobody keeps the lock

  /** What keeps process i from going on: see Blocked; or log.lock. */
  predicate Held(y: Sys, i: nat)
    requires i < |y.pc| == |y.k.procs|
  {
    Blocked(y.k, i) || (y.k.procs[i].phase.Out? && (y.k.procs[i].state != Running || y.k.lk.Some?))
  }

  /** What process i does next; in an operation it may also log another block. */
  function NextOp(y: Sys, i: nat): Op
    requires i < |y.pc| == |y.k.procs|
  {
    if InProtocol(y.k.procs[i].phase) then Inner(NextStep(y.k, i))
    else
      match y.pc[i]
      case Idle => Ask(i)
      case Asking => if Open(y.a) then Op.Enter(i) else Wait(i)
      case Admitted => EnterDone(i)
      case Busy => BeginEnd(i)
      case Logging => Log(i, 0)
      case Logged => LogDone(i)
      case Ending => End(i)
      case Started => StartCommit(i)
      case Commits => Erase(i)
      case Erased => EndCommit(i)
      case Finishing => Finish(i)
      case Wakes => Wake(i)
      case Woke => Op.Leave(i)
  }

  /**
   On every run a process can take its next step unless it is held up; and it has no choice which, except to log blocks
   in an operation. (A process in log_write, of which Journal treats, is left out.)
   */
  lemma NobodyStuck(n: nat, y: Sys, ops: seq<Op>, i: nat)
    requires n <= MAXOPBLOCKS && Fresh(y) && Legal(n, y, ops)
    requires i < |After(n, y, ops).pc| == |After(n, y, ops).k.procs|
    requires !Held(After(n, y, ops), i) && After(n, y, ops).pc[i] != Logging
    ensures var z := After(n, y, ops);
            && Allowed(n, z, NextOp(z, i)) && Actor(NextOp(z, i)) == i
            && forall op: Op :: Allowed(n, z, op) && !op.Inner? && op.i == i ==> op == NextOp(z, i) || op == BeginLog(i)
  {
    hide Legal, After, Fresh;
    RunKeeps(n, y, ops);
    GoesOnFrom(n, After(n, y, ops), i);
  }

  lemma GoesOnFrom(n: nat, z: Sys, i: nat)
    requires Invariant(n, z) && i < |z.pc| && !Held(z, i) && z.pc[i] != Logging
    ensures Allowed(n, z, NextOp(z, i)) && Actor(NextOp(z, i)) == i
    ensures forall op: Op :: Allowed(n, z, op) && !op.Inner? && op.i == i ==> op == NextOp(z, i) || op == BeginLog(i)
  {
    assert PhaseFits(z.pc[i], z.k.procs[i].phase) && CountedOk(z, i);
    hide KernelOk, NoLost, A.Inv, SomebodyCommits;
    if InProtocol(z.k.procs[i].phase) {
      GoesOn(z.k, i);
      InnerNext(n, z, i);
    } else {
      OuterNext(n, z, i);
      NextIsForced(n, z, i);
    }
  }

  lemma InnerNext(n: nat, z: Sys, i: nat)
    requires i < |z.pc| == |z.k.procs| && InProtocol(z.k.procs[i].phase) && PhaseFits(z.pc[i], z.k.procs[i].phase)
    requires Enabled(z.k, NextStep(z.k, i)) && NextStep(z.k, i).i == i
    ensures Allowed(n, z, NextOp(z, i)) && Actor(NextOp(z, i)) == i
    ensures forall op: Op :: Allowed(n, z, op) && !op.Inner? && op.i == i ==> op == NextOp(z, i) || op == BeginLog(i)
  {
  }

  lemma OuterNext(n: nat, z: Sys, i: nat)
    requires i < |z.pc| == |z.k.procs| && !InProtocol(z.k.procs[i].phase) && PhaseFits(z.pc[i], z.k.procs[i].phase)
    requires CountedOk(z, i) && !Held(z, i) && z.pc[i] != Logging
    ensures Allowed(n, z, NextOp(z, i)) && Actor(NextOp(z, i)) == i
  {
    hide J.Admits;
  }

  lemma NextIsForced(n: nat, z: Sys, i: nat)
    requires i < |z.pc| == |z.k.procs| && !InProtocol(z.k.procs[i].phase) && z.pc[i] != Logging
    ensures forall op: Op :: Allowed(n, z, op) && !op.Inner? && op.i == i ==> op == NextOp(z, i) || op == BeginLog(i)
  {
    hide J.Admits, Enabled, A.Enabled;
  }

  /** How far a process that holds the lock is from letting go of it, in calls. */
  function CallsLeft(pc: Pc, ph: Phase<Chan>): int {
    match pc
    case Asking => if ph.In? then 3 else 0
    case Admitted => 1
    case Logging => 2
    case Logged => 1
    case Ending => 4
    case Started => 1
    case Finishing => 4
    case Wakes => 3
    case Woke => 1
    case _ => 0
  }

  function Left(y: Sys, i: nat): (int, int)
    requires i < |y.pc| == |y.k.procs|
  {
    (CallsLeft(y.pc[i], y.k.procs[i].phase), PhaseLeft(y.k.procs[i].phase, |y.pc|))
  }

  /** On every run, each step that a process makes while it holds the lock brings it closer to letting go of it. */
  lemma LetsGo(n: nat, y: Sys, ops: seq<Op>, op: Op)
    requires n <= MAXOPBLOCKS && Fresh(y) && Legal(n, y, ops) && Allowed(n, After(n, y, ops), op)
    requires op.Inner? ==> IsProtocol(op.s)
    requires var z, i := After(n, y, ops), Actor(op);
             i < |z.k.procs| == |Do(n, z, op).k.procs|
             && HoldsLk(z.k.procs[i].phase) && HoldsLk(Do(n, z, op).k.procs[i].phase)
    ensures var z, i := After(n, y, ops), Actor(op);
            && i < |z.pc| == |z.k.procs| == |Do(n, z, op).pc| == |Do(n, z, op).k.procs|
            && Less(Left(Do(n, z, op), i), Left(z, i))
  {
    hide Legal, After, Fresh;
    RunKeeps(n, y, ops);
    var z, i := After(n, y, ops), Actor(op);
    StepSizes(n, z, op);
    StepLetsGo(n, z, op);
  }

  /** What others do meanwhile does not take it further away. */
  lemma LeftKept(n: nat, z: Sys, op: Op, i: nat)
    requires Allowed(n, z, op) && i < |z.pc| == |z.k.procs| && i != Actor(op)
    ensures |Do(n, z, op).pc| == |Do(n, z, op).k.procs| == |z.pc| && Left(Do(n, z, op), i) == Left(z, i)
  {
    if KernelStep(z, op).Some? {
      StepMovesOne(z.k, KernelStep(z, op).value, i);
    }
    hide A.Apply, A.Enabled, Guard, NextPc;
  }

  lemma StepLetsGo(n: nat, z: Sys, op: Op)
    requires Invariant(n, z) && Allowed(n, z, op) && (op.Inner? ==> IsProtocol(op.s)) && Actor(op) < |z.pc|
    requires |Do(n, z, op).pc| == |Do(n, z, op).k.procs| == |z.pc|
    requires HoldsLk(z.k.procs[Actor(op)].phase) && HoldsLk(Do(n, z, op).k.procs[Actor(op)].phase)
    ensures Less(Left(Do(n, z, op), Actor(op)), Left(z, Actor(op)))
  {
    hide KernelOk, NoLost, A.Inv, A.Apply, A.Enabled, SomebodyCommits, CountedOk;
    var i := Actor(op);
    assert PhaseFits(z.pc[i], z.k.procs[i].phase);
    StepNoLost(n, z, op);
    PhaseLeftBound(z.k, i);
    PhaseLeftBound(Do(n, z, op).k, i);
    hide Invariant, CountStep;
    if op.Inner? {
      ProtocolLetsGo(z.k, op.s);
      InnerCalls(z.k, op.s, z.pc[i]);
    } else {
      OuterCalls(n, z, op);
    }
    hide PhaseLeft, CallsLeft, Apply, Guard, Enabled, PhaseFits, NextPc;
  }

  lemma InnerCalls(k: Kernel<Chan>, s: Step<Chan>, pc: Pc)
    requires Enabled(k, s) && IsProtocol(s) && PhaseFits(pc, k.procs[s.i].phase)
    requires HoldsLk(k.procs[s.i].phase) && HoldsLk(Apply(k, s).procs[s.i].phase)
    ensures CallsLeft(pc, Apply(k, s).procs[s.i].phase) == CallsLeft(pc, k.procs[s.i].phase)
  {
    hide Woken;
  }

  lemma OuterCalls(n: nat, z: Sys, op: Op)
    requires Allowed(n, z, op) && !op.Inner? && op.i < |z.pc| == |z.k.procs|
    requires PhaseFits(z.pc[op.i], z.k.procs[op.i].phase)
    requires |Do(n, z, op).pc| == |Do(n, z, op).k.procs| == |z.pc|
    requires HoldsLk(z.k.procs[op.i].phase) && HoldsLk(Do(n, z, op).k.procs[op.i].phase)
    ensures var z', i := Do(n, z, op), op.i;
            CallsLeft(z'.pc[i], z'.k.procs[i].phase) < CallsLeft(z.pc[i], z.k.procs[i].phase)
  {
    hide Woken, A.Apply, A.Enabled, J.Admits;
  }

  /** On every run a commit in progress is some process's, so it does not stay in progress for nobody. */
  lemma CommitHasCommitter(n: nat, y: Sys, ops: seq<Op>)
    requires n <= MAXOPBLOCKS && Fresh(y) && Legal(n, y, ops) && After(n, y, ops).a.committing
    ensures exists i :: 0 <= i < |After(n, y, ops).pc| && Committer(After(n, y, ops).pc[i])
  {
    RunKeeps(n, y, ops);
    assert SomebodyCommits(After(n, y, ops));
  }
}
