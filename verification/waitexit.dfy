/**
 fork's parent link, exit, reparent and wait (kernel/proc.c), run by any number
 of processes on the sleep/wakeup protocol of module Sleep: lk is wait_lock, and
 a process in wait sleeps on its own address, so channels are process numbers.
 */
module WaitExit {
  import opened Common
  import opened Sleep

  /** Used(maker): allocated by a fork of process maker, not yet running. */
  datatype Life = Unused | Used(maker: nat) | Alive | Zombie

  datatype Pc =
    | Free
    | Forking(child: nat)         // after allocproc
    | Linking(child: nat)         // holds wait_lock, before the child's parent is set
    | Linked(child: nat)          // after it
    | Starting(child: nat)        // wait_lock released
    | Reparenting(n: nat)         // in exit, at table index n of reparent
    | Passing(n: nat)             // has given child n to init, before wakeup(initproc)
    | PassWaking(n: nat)          // in or after that wakeup
    | ParentWaking                // in or after wakeup(p->parent)
    | Scanning(n: nat, kids: bool)
    | Waiting                     // in sleep
    | WaitDone(got: Option<Reap>) // about to return the pid of the process it freed, or -1

  /** Process child, in its incarnation gen, was freed by wait in process parent. */
  datatype Reap = Reap(child: nat, gen: nat, parent: nat)

  datatype Sys = Sys(k: Kernel<nat>, init: nat, life: seq<Life>, parent: seq<Option<nat>>, pc: seq<Pc>,
                     gen: seq<nat>, reaped: seq<Reap>)

  datatype Op =
    | ForkAlloc(i: nat, j: nat)
    | ForkFail(i: nat)
    | ForkLock(i: nat)
    | ForkLink(i: nat)
    | ForkUnlock(i: nat)
    | ForkRun(i: nat)
    | ExitLock(i: nat)
    | Reparent(i: nat)                    // one iteration of reparent, up to its wakeup
    | PassCall(i: nat)
    | PassBack(i: nat)
    | ExitCall(i: nat)
    | ExitDie(i: nat)                     // takes p->lock and becomes a ZOMBIE
    | WaitLock(i: nat)
    | Scan(i: nat, copyFails: bool)       // one iteration of wait's scan
    | ScanEnd(i: nat, killed: bool)
    | Rescan(i: nat)
    | WaitReturn(i: nat)
    | Inner(s: Step<nat>)

  predicate IsInner(s: Step<nat>) {
    s.LockSelf? || s.Fall? || s.Doze? || s.Switch? || s.Kill? || s.Schedule? || s.Tidy? || s.Reacquire?
    || s.WakeNext? || s.WakeDone? || s.Elsewhere? || s.LeaveUnlock? || s.LeaveSwitch?
  }

  ghost predicate Sized(y: Sys) {
    && |y.k.procs| == |y.life| == |y.parent| == |y.pc| == |y.gen| && y.init < |y.pc|
  }

  function Actor(op: Op): nat {
    if op.Inner? then op.s.i else op.i
  }

  predicate InLk(y: Sys, i: nat) {
    i < |y.k.procs| && y.k.procs[i].phase.In? && y.k.procs[i].phase.owes == {}
  }

  ghost predicate Allowed(y: Sys, op: Op) {
    && Sized(y) && Actor(op) < |y.pc|
    && (!op.Inner? ==> y.life[op.i] == Alive)
    && match op
       case ForkAlloc(i, j) => y.pc[i] == Free && y.k.procs[i].phase.Out? && j < |y.pc| && y.life[j] == Unused
       case ForkFail(i) => y.pc[i].Forking? && y.pc[i].child < |y.pc|
       case ForkLock(i) => y.pc[i].Forking? && Enabled(y.k, Acquire(i))
       case ForkLink(i) => y.pc[i].Linking? && InLk(y, i) && y.pc[i].child < |y.pc|
       case ForkUnlock(i) => y.pc[i].Linked? && Enabled(y.k, Release(i))
       case ForkRun(i) => y.pc[i].Starting? && y.pc[i].child < |y.pc| && Enabled(y.k, Reborn(y.pc[i].child))
       case ExitLock(i) => y.pc[i] == Free && i != y.init && Enabled(y.k, Acquire(i))
       case Reparent(i) => y.pc[i].Reparenting? && y.pc[i].n < |y.pc| && InLk(y, i)
       case PassCall(i) => y.pc[i].Passing? && Enabled(y.k, CallWakeup(i, y.init))
       case PassBack(i) => y.pc[i].PassWaking? && InLk(y, i)
       case ExitCall(i) => y.pc[i].Reparenting? && y.pc[i].n == |y.pc| && InLk(y, i) && y.parent[i].Some?
                           && Enabled(y.k, CallWakeup(i, y.parent[i].value))
       case ExitDie(i) => y.pc[i] == ParentWaking && Enabled(y.k, Leave(i))
       case WaitLock(i) => y.pc[i] == Free && Enabled(y.k, Acquire(i))
       case Scan(i, fails) => y.pc[i].Scanning? && y.pc[i].n < |y.pc| && InLk(y, i)
                              && (y.parent[y.pc[i].n] == Some(i) ==> !HoldsOwn(y.k.procs[y.pc[i].n].phase))
       case ScanEnd(i, killed) => y.pc[i].Scanning? && y.pc[i].n == |y.pc| && InLk(y, i)
       case Rescan(i) => y.pc[i] == Waiting && InLk(y, i)
       case WaitReturn(i) => y.pc[i].WaitDone? && Enabled(y.k, Release(i))
       case Inner(s) => IsInner(s) && Enabled(y.k, s)
  }

  /** The step of the sleep/wakeup protocol that an operation makes, if any. */
  ghost function KernelStep(y: Sys, op: Op): Option<Step<nat>>
    requires Allowed(y, op)
  {
    match op
    case ForkLock(i) => Some(Acquire(i))
    case ForkUnlock(i) => Some(Release(i))
    case ForkRun(i) => Some(Reborn(y.pc[i].child))
    case ExitLock(i) => Some(Acquire(i))
    case Reparent(i) => if y.parent[y.pc[i].n] == Some(i) then Some(Owe(i, {y.init})) else None
    case PassCall(i) => Some(CallWakeup(i, y.init))
    case ExitCall(i) => Some(CallWakeup(i, y.parent[i].value))
    case ExitDie(i) => Some(Leave(i))
    case WaitLock(i) => Some(Acquire(i))
    case ScanEnd(i, killed) => if y.pc[i].kids && !killed then Some(CallSleep(i, i)) else None
    case WaitReturn(i) => Some(Release(i))
    case Inner(s) => Some(s)
    case _ => None
  }

  lemma KernelStepEnabled(y: Sys, op: Op)
    requires Allowed(y, op) && KernelStep(y, op).Some?
    ensures Enabled(y.k, KernelStep(y, op).value)
  {
  }

  ghost function KernelAfter(y: Sys, op: Op): (k: Kernel<nat>)
    requires Allowed(y, op)
    ensures |k.procs| == |y.k.procs|
  {
    KernelStepIf(y, op);
    if KernelStep(y, op).Some? then Apply(y.k, KernelStep(y, op).value) else y.k
  }

  lemma KernelStepIf(y: Sys, op: Op)
    requires Allowed(y, op)
    ensures KernelStep(y, op).Some? ==> Enabled(y.k, KernelStep(y, op).value)
  {
    if KernelStep(y, op).Some? {
      KernelStepEnabled(y, op);
    }
  }

  /** What wait does with entry n of the process table. */
  predicate Reaps(y: Sys, op: Op)
    requires op.Scan? && op.i < |y.pc| && y.pc[op.i].Scanning? && y.pc[op.i].n < |y.parent| && y.pc[op.i].n < |y.life|
  {
    y.parent[y.pc[op.i].n] == Some(op.i) && y.life[y.pc[op.i].n] == Zombie
  }

  ghost function PcAfter(y: Sys, op: Op): Pc
    requires Allowed(y, op)
  {
    var pc := y.pc[Actor(op)];
    match op
    case ForkAlloc(i, j) => Forking(j)
    case ForkFail(i) => Free
    case ForkLock(i) => Linking(pc.child)
    case ForkLink(i) => Linked(pc.child)
    case ForkUnlock(i) => Starting(pc.child)
    case ForkRun(i) => Free
    case ExitLock(i) => Reparenting(0)
    case Reparent(i) => if y.parent[pc.n] == Some(i) then Passing(pc.n) else Reparenting(pc.n + 1)
    case PassCall(i) => PassWaking(pc.n)
    case PassBack(i) => Reparenting(pc.n + 1)
    case ExitCall(i) => ParentWaking
    case ExitDie(i) => Free
    case WaitLock(i) => Scanning(0, false)
    case Scan(i, fails) =>
      if Reaps(y, op) then WaitDone(if fails then None else Some(Reap(pc.n, y.gen[pc.n], i)))
      else Scanning(pc.n + 1, pc.kids || y.parent[pc.n] == Some(i))
    case ScanEnd(i, killed) => if pc.kids && !killed then Waiting else WaitDone(None)
    case Rescan(i) => Scanning(0, false)
    case WaitReturn(i) => Free
    case Inner(s) => pc
  }

  ghost function LifeAfter(y: Sys, op: Op): seq<Life>
    requires Allowed(y, op)
  {
    match op
    case ForkAlloc(i, j) => y.life[j := Used(i)]
    case ForkFail(i) => y.life[y.pc[i].child := Unused]
    case ForkRun(i) => y.life[y.pc[i].child := Alive]
    case ExitDie(i) => y.life[i := Zombie]
    case Scan(i, fails) => if Reaps(y, op) && !fails then y.life[y.pc[i].n := Unused] else y.life
    case _ => y.life
  }

  ghost function ParentAfter(y: Sys, op: Op): seq<Option<nat>>
    requires Allowed(y, op)
  {
    match op
    case ForkFail(i) => y.parent[y.pc[i].child := None]
    case ForkLink(i) => y.parent[y.pc[i].child := Some(i)]
    case Reparent(i) => if y.parent[y.pc[i].n] == Some(i) then y.parent[y.pc[i].n := Some(y.init)] else y.parent
    case Scan(i, fails) => if Reaps(y, op) && !fails then y.parent[y.pc[i].n := None] else y.parent
    case _ => y.parent
  }

  ghost function Do(y: Sys, op: Op): (y': Sys)
    requires Allowed(y, op)
    ensures Sized(y') && |y'.pc| == |y.pc| && y'.init == y.init
  {
    var reap := op.Scan? && Reaps(y, op) && !op.copyFails;
    Sys(KernelAfter(y, op), y.init, LifeAfter(y, op), ParentAfter(y, op), y.pc[Actor(op) := PcAfter(y, op)],
        if op.ForkAlloc? then y.gen[op.j := y.gen[op.j] + 1] else y.gen,
        if reap then y.reaped + [Reap(y.pc[op.i].n, y.gen[y.pc[op.i].n], op.i)] else y.reaped)
  }

  // ----- the invariant

  predicate ZombieChild(y: Sys, c: nat, q: nat) {
    c < |y.parent| && c < |y.life| && y.parent[c] == Some(q) && y.life[c] == Zombie
  }

  /** Processes with no zombie child: those for which it is right to sleep in wait. */
  ghost function Good(y: Sys): set<nat> {
    set q | 0 <= q < |y.pc| && NoZombieChild(y, q)
  }

  ghost predicate NoZombieChild(y: Sys, q: nat) {
    forall c :: 0 <= c < |y.parent| ==> !ZombieChild(y, c, q)
  }

  ghost predicate ParentOk(y: Sys, c: nat)
    requires Sized(y) && c < |y.parent|
  {
    && (y.parent[c].Some? ==> y.parent[c].value < |y.life| && y.life[y.parent[c].value] == Alive)
    && (c != y.init && (y.life[c] == Alive || y.life[c] == Zombie) ==> y.parent[c].Some?)
    && (y.life[c] == Unused ==> y.parent[c] == None)
  }

  ghost predicate ParentsOk(y: Sys)
    requires Sized(y)
  {
    y.life[y.init] == Alive && forall c :: 0 <= c < |y.parent| ==> ParentOk(y, c)
  }

  function Making(pc: Pc): Option<nat> {
    if pc.Forking? || pc.Linking? || pc.Linked? || pc.Starting? then Some(pc.child) else None
  }

  /** A process in fork makes a process that is marked as its own, and has it for parent once it is linked. */
  ghost predicate MakerOk(y: Sys, i: nat)
    requires Sized(y) && i < |y.pc|
  {
    Making(y.pc[i]).Some? ==>
      var j := Making(y.pc[i]).value;
      && j < |y.pc| && y.life[j] == Used(i) && y.life[i] == Alive
      && y.parent[j] == (if y.pc[i].Linked? || y.pc[i].Starting? then Some(i) else None)
  }

  ghost predicate MadeOk(y: Sys, j: nat)
    requires Sized(y) && j < |y.life|
  {
    y.life[j].Used? ==> y.life[j].maker < |y.pc| && Making(y.pc[y.life[j].maker]) == Some(j)
  }

  ghost predicate MakersOk(y: Sys)
    requires Sized(y)
  {
    && (forall i :: 0 <= i < |y.pc| ==> MakerOk(y, i))
    && (forall j :: 0 <= j < |y.life| ==> MadeOk(y, j))
  }

  /** The phases of the protocol that go with each place in the code of process i. */
  predicate PhaseFits(y: Sys, i: nat, pc: Pc, ph: Phase<nat>)
    requires i < |y.parent|
  {
    match pc
    case Free => ph.Out?
    case Forking(_) => ph.Out?
    case Starting(_) => ph.Out?
    case Passing(_) => ph.In? && ph.owes == {y.init}
    case PassWaking(_) => (ph.In? && ph.owes == {}) || (ph.Waking? && ph.chan == y.init && ph.owes <= {y.init})
    case ParentWaking =>
      && y.parent[i].Some?
      && ((ph.In? && ph.owes == {} && y.parent[i].value in ph.cleared)
          || (ph.Waking? && ph.owes == {} && ph.chan == y.parent[i].value))
    case Waiting => (ph.In? && ph.owes == {}) || ph.Back?
                    || ((ph.Enter? || ph.Committed? || ph.Falling? || ph.Down? || ph.Asleep? || ph.Resumed?)
                        && ph.chan == i)
    case _ => ph.In? && ph.owes == {}
  }

  ghost predicate PhaseOk(y: Sys, i: nat)
    requires Sized(y) && i < |y.pc|
  {
    var ph := y.k.procs[i].phase;
    match y.life[i]
    case Unused => y.pc[i] == Free && ph.Left?
    case Used(_) => y.pc[i] == Free && ph.Left?
    case Zombie => y.pc[i] == Free && (ph.LeaveLocked? || ph.Leaving? || ph.Left?)
    case Alive => PhaseFits(y, i, y.pc[i], ph)
  }

  ghost predicate PhasesOk(y: Sys)
    requires Sized(y)
  {
    forall i :: 0 <= i < |y.pc| ==> PhaseOk(y, i)
  }

  /** i has a child among the first n entries. */
  ghost predicate HasKid(y: Sys, i: nat, n: nat) {
    exists c :: 0 <= c < n && c < |y.parent| && y.parent[c] == Some(i)
  }

  /** What the loops of exit and wait have established; the process in such a loop holds wait_lock. */
  ghost predicate LoopOk(y: Sys, i: nat)
    requires Sized(y) && i < |y.pc|
  {
    match y.pc[i]
    case Reparenting(n) => i != y.init && n <= |y.pc| && forall c :: 0 <= c < n ==> y.parent[c] != Some(i)
    case Passing(n) => i != y.init && n < |y.pc| && forall c :: 0 <= c <= n ==> y.parent[c] != Some(i)
    case PassWaking(n) => i != y.init && n < |y.pc| && forall c :: 0 <= c <= n ==> y.parent[c] != Some(i)
    case ParentWaking => i != y.init && forall c :: 0 <= c < |y.pc| ==> y.parent[c] != Some(i)
    case Scanning(n, kids) =>
      && n <= |y.pc| && (forall c :: 0 <= c < n ==> !ZombieChild(y, c, i))
      && (kids <==> HasKid(y, i, n))
    case _ => true
  }

  ghost predicate LoopsOk(y: Sys)
    requires Sized(y)
  {
    forall i :: 0 <= i < |y.pc| ==> LoopOk(y, i)
  }

  /** An incarnation that was freed is over: its slot is unused, or has been taken again. */
  ghost predicate ReapOver(y: Sys, a: nat)
    requires Sized(y) && a < |y.reaped|
  {
    var r := y.reaped[a];
    r.child < |y.gen| && (r.gen < y.gen[r.child] || (r.gen == y.gen[r.child] && y.life[r.child] == Unused))
  }

  /** No incarnation of a process has been freed twice, and the freed ones are over. */
  ghost predicate ReapsOk(y: Sys)
    requires Sized(y)
  {
    && (forall a :: 0 <= a < |y.reaped| ==> ReapOver(y, a))
    && (forall a, b :: 0 <= a < b < |y.reaped| ==>
          y.reaped[a].child != y.reaped[b].child || y.reaped[a].gen != y.reaped[b].gen)
  }

  ghost predicate Invariant(y: Sys) {
    && Sized(y) && KernelOk(y.k) && NoLost(y.k, Good(y))
    && ParentsOk(y) && MakersOk(y) && PhasesOk(y) && LoopsOk(y) && ReapsOk(y)
  }

  // ----- every step keeps the invariant

  /** A process in one of the loops holds wait_lock. */
  lemma LoopHoldsLk(y: Sys, i: nat)
    requires Sized(y) && PhasesOk(y) && LocksOk(y.k) && i < |y.pc| && y.life[i] == Alive
    requires y.pc[i].Linking? || y.pc[i].Linked? || y.pc[i].Reparenting? || y.pc[i].Passing? || y.pc[i].PassWaking?
             || y.pc[i].ParentWaking? || y.pc[i].Scanning? || y.pc[i].WaitDone?
    ensures y.k.lk == Some(i)
  {
    assert PhaseOk(y, i);
    assert HoldsLk(y.k.procs[i].phase);
  }

  lemma StepParents(y: Sys, op: Op)
    requires Invariant(y) && Allowed(y, op)
    ensures ParentsOk(Do(y, op))
  {
    hide KernelOk, NoLost, ReapsOk, KernelAfter, PcAfter, PhasesOk, HasKid, Enabled, ParentOk, LoopsOk, MakersOk;
    forall c | 0 <= c < |y.parent|
      ensures ParentOk(Do(y, op), c)
    {
      StepParent(y, op, c);
    }
    InitLives(y, op);
  }

  /**
   Only exit ends a process, and by then it has no children; fork gives a child a living parent, and reparent gives it
   init.
   */
  lemma StepParent(y: Sys, op: Op, c: nat)
    requires Invariant(y) && Allowed(y, op) && c < |y.parent|
    ensures ParentOk(Do(y, op), c)
  {
    hide KernelOk, NoLost, ReapsOk, KernelAfter, PcAfter, PhasesOk, HasKid, Enabled, PhaseOk, LoopsOk, MakersOk,
         NoZombieChild;
    assert ParentOk(y, c);
    assert LoopOk(y, Actor(op)) && MakerOk(y, Actor(op)) by { Pick(y, Actor(op)); }
  }

  lemma Pick(y: Sys, i: nat)
    requires Invariant(y) && i < |y.pc|
    ensures LoopOk(y, i) && MakerOk(y, i) && ParentOk(y, i) && MadeOk(y, i) && PhaseOk(y, i)
  {
    hide LoopOk, MakerOk, ParentOk, MadeOk, PhaseOk, KernelOk, NoLost, ReapsOk;
  }

  lemma InitLives(y: Sys, op: Op)
    requires Invariant(y) && Allowed(y, op)
    ensures Do(y, op).life[y.init] == Alive
  {
    hide KernelOk, NoLost, ReapsOk, KernelAfter, PcAfter, PhasesOk, HasKid, Enabled, PhaseOk, LoopsOk, MakersOk,
         ParentOk;
    Pick(y, Actor(op));
  }

  lemma StepReaps(y: Sys, op: Op)
    requires Invariant(y) && Allowed(y, op)
    ensures ReapsOk(Do(y, op))
  {
    hide KernelOk, NoLost, PhasesOk, LoopsOk, ParentsOk, PhaseOk, MakersOk, LoopOk, ParentOk, MadeOk, MakerOk, ReapsOk;
    assert Actor(op) < |y.pc|;
    hide Allowed, Do;
    Pick(y, Actor(op));
    ReapsBound(y, op);
    ReapsDiffer(y, op);
  }

  lemma ReapsBound(y: Sys, op: Op)
    requires Sized(y) && ReapsOk(y) && Allowed(y, op) && Actor(op) < |y.pc| && MakerOk(y, Actor(op))
    ensures forall a :: 0 <= a < |Do(y, op).reaped| ==> ReapOver(Do(y, op), a)
  {
    hide KernelAfter, PcAfter, ParentAfter, Enabled;
    forall a | 0 <= a < |Do(y, op).reaped|
      ensures ReapOver(Do(y, op), a)
    {
      if a < |y.reaped| {
        assert ReapOver(y, a);
      }
    }
  }

  lemma ReapsDiffer(y: Sys, op: Op)
    requires Sized(y) && ReapsOk(y) && Allowed(y, op)
    requires forall a :: 0 <= a < |Do(y, op).reaped| ==> ReapOver(Do(y, op), a)
    ensures ReapsOk(Do(y, op))
  {
    hide KernelAfter, PcAfter, ParentAfter, LifeAfter, Enabled, ReapOver;
    var y' := Do(y, op);
    forall a, b | 0 <= a < b < |y'.reaped|
      ensures y'.reaped[a].child != y'.reaped[b].child || y'.reaped[a].gen != y'.reaped[b].gen
    {
      NewReapDiffers(y, op, a, b);
    }
  }

  /** A zombie that is freed now was not freed before: its incarnation was not over. */
  lemma NewReapDiffers(y: Sys, op: Op, a: nat, b: nat)
    requires Sized(y) && ReapsOk(y) && Allowed(y, op) && a < b < |Do(y, op).reaped|
    ensures var y' := Do(y, op);
            y'.reaped[a].child != y'.reaped[b].child || y'.reaped[a].gen != y'.reaped[b].gen
  {
    hide KernelAfter, PcAfter, ParentAfter, LifeAfter, Enabled;
    assert ReapOver(y, a);
  }

  lemma StepMakers(y: Sys, op: Op)
    requires Invariant(y) && Allowed(y, op)
    ensures MakersOk(Do(y, op))
  {
    hide KernelOk, NoLost, KernelAfter, LoopsOk, ReapsOk, Enabled, MakerOk, MadeOk, ParentsOk, PhasesOk;
    forall i | 0 <= i < |y.pc|
      ensures MakerOk(Do(y, op), i) && MadeOk(Do(y, op), i)
    {
      StepMaker(y, op, i);
      StepMade(y, op, i);
    }
  }

  lemma StepMaker(y: Sys, op: Op, i: nat)
    requires Invariant(y) && Allowed(y, op) && i < |y.pc|
    ensures MakerOk(Do(y, op), i)
  {
    if i == Actor(op) {
      ActorMaker(y, op);
    } else {
      OtherMaker(y, op, i);
    }
  }

  /** Only fork's steps leave their caller making a process. */
  lemma PcMaking(y: Sys, op: Op)
    requires Allowed(y, op)
    ensures !(op.ForkAlloc? || op.ForkLock? || op.ForkLink? || op.ForkUnlock? || op.Inner?) ==>
              Making(PcAfter(y, op)) == None
  {
    hide Enabled;
  }

  lemma ActorMaker(y: Sys, op: Op)
    requires Invariant(y) && Allowed(y, op)
    ensures MakerOk(Do(y, op), Actor(op))
  {
    PcMaking(y, op);
    if op.ForkAlloc? || op.ForkLock? || op.ForkLink? || op.ForkUnlock? || op.Inner? {
      ForkMaker(y, op);
    }
    hide Invariant, PcAfter, KernelAfter, LifeAfter, ParentAfter;
  }

  lemma ForkMaker(y: Sys, op: Op)
    requires Invariant(y) && Allowed(y, op)
    requires op.ForkAlloc? || op.ForkLock? || op.ForkLink? || op.ForkUnlock? || op.Inner?
    ensures MakerOk(Do(y, op), Actor(op))
  {
    hide KernelOk, NoLost, KernelAfter, LoopsOk, ReapsOk, Enabled, PhaseOk, MakersOk, ParentsOk, PhasesOk, MadeOk,
         LoopOk, KernelStep;
    Pick(y, Actor(op));
    if op.ForkAlloc? {
      Pick(y, op.j);
    }
  }

  lemma OtherMaker(y: Sys, op: Op, i: nat)
    requires Invariant(y) && Allowed(y, op) && i < |y.pc| && i != Actor(op)
    ensures MakerOk(Do(y, op), i)
  {
    hide KernelOk, NoLost, KernelAfter, LoopsOk, ReapsOk, Enabled, PhaseOk, MakersOk, ParentsOk, PhasesOk, MadeOk,
         LoopOk, KernelStep, PcAfter;
    Pick(y, Actor(op));
    Pick(y, i);
  }

  lemma StepMade(y: Sys, op: Op, j: nat)
    requires Invariant(y) && Allowed(y, op) && j < |y.pc|
    ensures MadeOk(Do(y, op), j)
  {
    hide KernelOk, NoLost, KernelAfter, LoopsOk, ReapsOk, Enabled, PhaseOk, MakersOk, ParentsOk, PhasesOk, LoopOk,
         ParentAfter, ParentOk, KernelStep;
    Pick(y, Actor(op));
    Pick(y, j);
    if op.ForkAlloc? {
      Pick(y, op.j);
    }
  }

  /** A process that is in exit, wait or fork's critical section is the only one. */
  lemma OneInside(y: Sys, i: nat, j: nat)
    requires Invariant(y) && i < |y.pc| && j < |y.pc| && y.life[i] == Alive && HoldsLk(y.k.procs[j].phase)
    requires y.pc[i].Linking? || y.pc[i].Linked? || y.pc[i].Reparenting? || y.pc[i].Passing? || y.pc[i].PassWaking?
             || y.pc[i].ParentWaking? || y.pc[i].Scanning? || y.pc[i].WaitDone?
    ensures i == j
  {
    hide NoLost, ReapsOk, MakersOk, LoopsOk, ParentsOk, WokenOk, FieldsOk;
    LoopHoldsLk(y, i);
  }

  /** Parents and zombies change only in the hands of the holder of wait_lock. */
  lemma OnlyHolderWrites(y: Sys, op: Op, c: nat)
    requires Invariant(y) && Allowed(y, op) && c < |y.pc| && !HoldsLk(y.k.procs[Actor(op)].phase)
    ensures Do(y, op).parent[c] == y.parent[c] && (Do(y, op).life[c] == Zombie <==> y.life[c] == Zombie)
  {
    hide KernelOk, NoLost, ReapsOk, KernelAfter, PcAfter, MakersOk, LoopsOk, ParentsOk, PhasesOk, LoopOk;
    Pick(y, Actor(op));
  }

  lemma StepPhase(y: Sys, op: Op, i: nat)
    requires Invariant(y) && Allowed(y, op) && i < |y.pc|
    ensures PhaseOk(Do(y, op), i)
  {
    hide KernelOk, NoLost, ReapsOk, MakersOk, LoopsOk, ParentsOk, PhasesOk, Invariant;
    if i == Actor(op) {
      ActorPhase(y, op);
    } else {
      OtherPhase(y, op, i);
    }
  }

  lemma ActorPhase(y: Sys, op: Op)
    requires Invariant(y) && Allowed(y, op)
    ensures PhaseOk(Do(y, op), Actor(op))
  {
    hide KernelOk, NoLost, ReapsOk, MakersOk, LoopsOk, ParentsOk, PhasesOk, LoopOk, ParentOk, MadeOk;
    Pick(y, Actor(op));
    if op.Inner? {
      InnerPhase(y, op.s);
    } else {
      OuterPhase(y, op);
    }
  }

  lemma InnerPhase(y: Sys, s: Step<nat>)
    requires Sized(y) && IsInner(s) && Enabled(y.k, s) && PhaseOk(y, s.i)
    ensures PhaseOk(y.(k := Apply(y.k, s)), s.i)
  {
    hide Woken;
    var ph := y.k.procs[s.i].phase;
    if s.WakeDone? {
      assert ph.owes - {ph.chan} <= ph.owes;
    }
  }

  lemma OuterPhase(y: Sys, op: Op)
    requires Allowed(y, op) && !op.Inner? && PhaseOk(y, op.i)
    requires Making(y.pc[op.i]) != Some(op.i)
    ensures PhaseOk(Do(y, op), op.i)
  {
    if op.WaitLock? || op.Scan? || op.ScanEnd? || op.Rescan? || op.WaitReturn? {
      WaitPhase(y, op);
    } else {
      ForkExitPhase(y, op);
    }
  }

  lemma WaitPhase(y: Sys, op: Op)
    requires Allowed(y, op) && (op.WaitLock? || op.Scan? || op.ScanEnd? || op.Rescan? || op.WaitReturn?)
    requires PhaseOk(y, op.i) && Making(y.pc[op.i]) != Some(op.i)
    ensures PhaseOk(Do(y, op), op.i)
  {
    hide Woken, LifeAfter, ParentAfter;
    ActorData(y, op);
    KernelStepIf(y, op);
  }

  lemma ForkExitPhase(y: Sys, op: Op)
    requires Allowed(y, op) && !op.Inner? && !(op.WaitLock? || op.Scan? || op.ScanEnd? || op.Rescan? || op.WaitReturn?)
    requires PhaseOk(y, op.i) && Making(y.pc[op.i]) != Some(op.i)
    ensures PhaseOk(Do(y, op), op.i)
  {
    hide Woken, LifeAfter, ParentAfter;
    ActorData(y, op);
    assert {} + {y.init} == {y.init};
    KernelStepIf(y, op);
    if op.ForkRun? {
      StepMovesOne(y.k, Reborn(y.pc[op.i].child), op.i);
    }
  }

  lemma ActorData(y: Sys, op: Op)
    requires Allowed(y, op) && !op.Inner? && Making(y.pc[op.i]) != Some(op.i)
    ensures LifeAfter(y, op)[op.i] == if op.ExitDie? then Zombie else Alive
    ensures !op.Reparent? ==> ParentAfter(y, op)[op.i] == y.parent[op.i]
    ensures |ParentAfter(y, op)| == |y.parent|
  {
    hide Enabled;
  }

  lemma OtherPhase(y: Sys, op: Op, i: nat)
    requires Invariant(y) && Allowed(y, op) && i < |y.pc| && i != Actor(op)
    ensures PhaseOk(Do(y, op), i)
  {
    if op.ForkAlloc? || op.ForkFail? || op.ForkRun? || op.Scan? {
      OtherPhaseLife(y, op, i);
    } else {
      OtherPhaseSame(y, op, i);
    }
  }

  /** Steps that begin or end the life of another process. */
  lemma OtherPhaseLife(y: Sys, op: Op, i: nat)
    requires Invariant(y) && Allowed(y, op) && i < |y.pc| && i != Actor(op)
    requires op.ForkAlloc? || op.ForkFail? || op.ForkRun? || op.Scan?
    ensures PhaseOk(Do(y, op), i)
  {
    hide KernelOk, NoLost, ReapsOk, MakersOk, LoopsOk, ParentsOk, PhasesOk, PcAfter, KernelAfter, LoopOk, ParentOk,
         MadeOk;
    Pick(y, i);
    Pick(y, Actor(op));
    OtherMoves(y, op, i);
    if y.life[i] == Alive && y.pc[i].ParentWaking? && HoldsLk(y.k.procs[Actor(op)].phase) {
      OneInside(y, i, Actor(op));
    }
  }

  lemma OtherPhaseSame(y: Sys, op: Op, i: nat)
    requires Invariant(y) && Allowed(y, op) && i < |y.pc| && i != Actor(op)
    requires !(op.ForkAlloc? || op.ForkFail? || op.ForkRun? || op.Scan?)
    ensures PhaseOk(Do(y, op), i)
  {
    hide KernelOk, NoLost, ReapsOk, MakersOk, LoopsOk, ParentsOk, PhasesOk, PcAfter, KernelAfter, LoopOk, ParentOk,
         MadeOk;
    Pick(y, i);
    Pick(y, Actor(op));
    OtherMoves(y, op, i);
    if y.life[i] == Alive && y.pc[i].ParentWaking? && HoldsLk(y.k.procs[Actor(op)].phase) {
      OneInside(y, i, Actor(op));
    }
  }

  lemma OtherMoves(y: Sys, op: Op, i: nat)
    requires Allowed(y, op) && i < |y.pc| && i != Actor(op)
    ensures KernelAfter(y, op).procs[i].phase ==
            if op.ForkRun? && i == y.pc[op.i].child then Out else y.k.procs[i].phase
  {
    KernelStepIf(y, op);
    var s := KernelStep(y, op);
    if s.Some? && s.value.i != i {
      StepMovesOne(y.k, s.value, i);
      hide Enabled, Apply;
    }
  }

  lemma StepPhases(y: Sys, op: Op)
    requires Invariant(y) && Allowed(y, op)
    ensures PhasesOk(Do(y, op))
  {
    hide Invariant, PhaseOk, Do;
    forall i | 0 <= i < |y.pc|
      ensures PhaseOk(Do(y, op), i)
    {
      StepPhase(y, op, i);
    }
  }

  lemma StepLoop(y: Sys, op: Op, i: nat)
    requires Invariant(y) && Allowed(y, op) && i < |y.pc| && Do(y, op).life[i] == Alive
    ensures LoopOk(Do(y, op), i)
  {
    hide KernelOk, NoLost, ReapsOk, MakersOk, LoopsOk, ParentsOk, PhasesOk;
    Pick(y, i);
    if i == Actor(op) {
      ActorLoop(y, op);
    } else if y.life[i] == Alive {
      OtherLoop(y, op, i);
    }
  }

  /** A loop that process i is in is not disturbed by others. */
  lemma OtherLoop(y: Sys, op: Op, i: nat)
    requires Invariant(y) && Allowed(y, op) && i < |y.pc| && i != Actor(op) && y.life[i] == Alive
    ensures LoopOk(Do(y, op), i)
  {
    hide KernelOk, NoLost, ReapsOk, MakersOk, LoopsOk, ParentsOk, PhasesOk, PcAfter, KernelAfter, Enabled,
         ParentAfter, LifeAfter, PhaseOk, MakerOk, ParentOk, MadeOk;
    Pick(y, i);
    if HoldsLk(y.k.procs[Actor(op)].phase) {
      var pc := y.pc[i];
      if pc.Reparenting? || pc.Passing? || pc.PassWaking? || pc.ParentWaking? || pc.Scanning? {
        OneInside(y, i, Actor(op));
      }
    } else {
      forall c | 0 <= c < |y.pc|
        ensures Do(y, op).parent[c] == y.parent[c] && (Do(y, op).life[c] == Zombie <==> y.life[c] == Zombie)
      {
        OnlyHolderWrites(y, op, c);
      }
      SameLoop(y, Do(y, op), i);
    }
  }

  lemma SameLoop(y: Sys, y': Sys, i: nat)
    requires Sized(y) && Sized(y') && |y'.pc| == |y.pc| && i < |y.pc| && y'.pc[i] == y.pc[i] && y'.init == y.init
             && LoopOk(y, i)
    requires forall c :: 0 <= c < |y.pc| ==>
               y'.parent[c] == y.parent[c] && (y'.life[c] == Zombie <==> y.life[c] == Zombie)
    ensures LoopOk(y', i)
  {
    if y.pc[i].Scanning? {
      var n := y.pc[i].n;
      forall c | 0 <= c < n
        ensures !ZombieChild(y', c, i)
      {
        assert !ZombieChild(y, c, i);
      }
      assert HasKid(y', i, n) <==> HasKid(y, i, n);
    }
  }

  /** A loop of exit or wait makes progress. */
  lemma ActorLoop(y: Sys, op: Op)
    requires Invariant(y) && Allowed(y, op)
    ensures LoopOk(Do(y, op), Actor(op))
  {
    hide KernelOk, NoLost, ReapsOk, MakersOk, LoopsOk, ParentsOk, PhasesOk, KernelAfter, Enabled, PhaseOk, MakerOk,
         ParentOk, MadeOk, HasKid;
    Pick(y, Actor(op));
    var y' := Do(y, op);
    match op
    case Inner(s) => SameLoop(y, y', s.i);
    case WaitLock(i) => NoKidYet(y', i);
    case Rescan(i) => NoKidYet(y', i);
    case Scan(i, fails) =>
      if !Reaps(y, op) {
        KidOneMore(y, i, y.pc[i].n);
        KidSame(y, y', i, y.pc[i].n + 1);
        forall c | 0 <= c < y.pc[i].n + 1
          ensures !ZombieChild(y', c, i)
        {
          assert c < y.pc[i].n ==> !ZombieChild(y, c, i);
        }
      }
    case _ =>
  }

  lemma NoKidYet(y: Sys, i: nat)
    ensures !HasKid(y, i, 0)
  {
  }

  lemma KidOneMore(y: Sys, i: nat, n: nat)
    requires n < |y.parent|
    ensures HasKid(y, i, n + 1) <==> HasKid(y, i, n) || y.parent[n] == Some(i)
  {
  }

  lemma KidSame(y: Sys, y': Sys, i: nat, n: nat)
    requires y'.parent == y.parent
    ensures HasKid(y', i, n) <==> HasKid(y, i, n)
  {
  }

  lemma StepLoops(y: Sys, op: Op)
    requires Invariant(y) && Allowed(y, op)
    ensures LoopsOk(Do(y, op))
  {
    hide KernelOk, NoLost, ReapsOk, MakersOk, ParentsOk, PhasesOk, LoopOk, PhaseOk, Do;
    StepPhases(y, op);
    forall i | 0 <= i < |y.pc|
      ensures LoopOk(Do(y, op), i)
    {
      if Do(y, op).life[i] == Alive {
        StepLoop(y, op, i);
      } else {
        NotAliveIsFree(Do(y, op), i);
      }
    }
  }

  lemma NotAliveIsFree(y: Sys, i: nat)
    requires Sized(y) && PhasesOk(y) && i < |y.pc| && y.life[i] != Alive
    ensures LoopOk(y, i)
  {
    assert PhaseOk(y, i);
  }

  // ----- no wakeup of a parent is lost

  /**
   The only processes for which sleeping in wait stops being right are init, when it is given a child, and the parent of
   a dying process.
   */
  lemma GoodShrinks(y: Sys, op: Op, q: nat)
    requires Invariant(y) && Allowed(y, op) && q in Good(y) && q !in Good(Do(y, op))
    ensures (op.Reparent? && y.parent[y.pc[op.i].n] == Some(op.i) && q == y.init)
            || (op.ExitDie? && y.parent[op.i] == Some(q))
  {
    hide KernelOk, NoLost, ReapsOk, MakersOk, LoopsOk, ParentsOk, PhasesOk, KernelAfter, PcAfter, Enabled;
    Pick(y, Actor(op));
    var y' := Do(y, op);
    var c :| 0 <= c < |y'.parent| && ZombieChild(y', c, q);
    assert !ZombieChild(y, c, q);
  }

  lemma StepNoLost(y: Sys, op: Op)
    requires Invariant(y) && Allowed(y, op)
    ensures KernelOk(Do(y, op).k) && NoLost(Do(y, op).k, Good(Do(y, op)))
  {
    hide KernelOk, NoLost, ReapsOk, MakersOk, LoopsOk, ParentsOk, PhasesOk, LifeAfter, ParentAfter, PcAfter, Good;
    KernelStepIf(y, op);
    var s := KernelStep(y, op);
    var good, good' := Good(y), Good(Do(y, op));
    var k' := KernelAfter(y, op);
    if s.Some? {
      if s.value.CallSleep? {
        MaySleep(y, op.i);
      }
      StepKeepsKernel(y.k, s.value);
      StepKeepsNoLost(y.k, s.value, good);
    }
    forall q | q in good && q !in good'
      ensures (op.Reparent? && y.parent[y.pc[op.i].n] == Some(op.i) && q == y.init)
              || (op.ExitDie? && y.parent[op.i] == Some(q))
    {
      GoodShrinks(y, op, q);
    }
    if op.Reparent? || op.ExitDie? {
      Pick(y, op.i);
      WriteKeepsNoLost(k', op.i, good, good');
    } else {
      assert good <= good';
      NoLostMonotone(k', good, good');
    }
  }

  lemma NoLostMonotone(k: Kernel<nat>, good: set<nat>, good': set<nat>)
    requires NoLost(k, good) && good <= good'
    ensures NoLost(k, good')
  {
  }

  /** wait sleeps only after a scan that found no zombie child. */
  lemma MaySleep(y: Sys, i: nat)
    requires Invariant(y) && i < |y.pc| && y.pc[i].Scanning? && y.pc[i].n == |y.pc|
    ensures i in Good(y)
  {
    hide KernelOk, NoLost, ReapsOk, MakersOk, LoopsOk, ParentsOk, PhasesOk, MakerOk, ParentOk, PhaseOk, MadeOk;
    Pick(y, i);
  }

  lemma StepKeeps(y: Sys, op: Op)
    requires Invariant(y) && Allowed(y, op)
    ensures Invariant(Do(y, op))
  {
    StepParents(y, op);
    StepMakers(y, op);
    StepPhases(y, op);
    StepLoops(y, op);
    StepReaps(y, op);
    StepNoLost(y, op);
    hide KernelOk, NoLost, ReapsOk, MakersOk, LoopsOk, ParentsOk, PhasesOk, Do;
  }

  // ----- runs

  ghost predicate Legal(y: Sys, ops: seq<Op>)
    decreases |ops|, 0
  {
    ops == [] || (Legal(y, ops[..|ops| - 1]) && Allowed(After(y, ops[..|ops| - 1]), ops[|ops| - 1]))
  }

  ghost function After(y: Sys, ops: seq<Op>): Sys
    requires Legal(y, ops)
    decreases |ops|, 1
  {
    if ops == [] then y else Do(After(y, ops[..|ops| - 1]), ops[|ops| - 1])
  }

  /** After userinit: only init exists. */
  ghost predicate Boot(y: Sys) {
    && Sized(y) && y.k.lk == None && y.reaped == []
    && (forall i :: 0 <= i < |y.pc| ==>
          && y.pc[i] == Free && y.parent[i] == None && y.k.procs[i].chan == None
          && y.life[i] == (if i == y.init then Alive else Unused)
          && (if i == y.init then y.k.procs[i].phase.Out? else y.k.procs[i].phase.Left?))
  }

  lemma {:induction false} RunKeeps(y: Sys, ops: seq<Op>)
    requires Boot(y) && Legal(y, ops)
    ensures Invariant(After(y, ops))
    decreases |ops|
  {
    if ops == [] {
      BootKeeps(y);
    } else {
      RunKeeps(y, ops[..|ops| - 1]);
      StepKeeps(After(y, ops[..|ops| - 1]), ops[|ops| - 1]);
    }
  }

  lemma BootKeeps(y: Sys)
    requires Boot(y)
    ensures Invariant(y)
  {
    BootOk(y.k, Good(y));
    hide KernelOk, NoLost;
  }

  /**
   On every run, every parent pointer names a process that is neither UNUSED nor ZOMBIE, and every process but init has
   one.
   */
  lemma ParentsAreAlive(y: Sys, ops: seq<Op>, c: nat)
    requires Boot(y) && Legal(y, ops) && c < |After(y, ops).pc| && Sized(After(y, ops))
    ensures var z := After(y, ops);
            && (z.parent[c].Some? ==> z.parent[c].value < |z.life| && z.life[z.parent[c].value] == Alive)
            && (c != z.init && (z.life[c] == Alive || z.life[c] == Zombie) ==> z.parent[c].Some?)
  {
    RunKeeps(y, ops);
    hide KernelOk, NoLost, ReapsOk, MakersOk, LoopsOk, PhasesOk;
    assert ParentOk(After(y, ops), c);
  }

  /** On every run, with wait_lock free, a process that sleeps in wait, or is about to, has no zombie child. */
  lemma NoZombieUnseen(y: Sys, ops: seq<Op>, i: nat, c: nat)
    requires Boot(y) && Legal(y, ops) && After(y, ops).k.lk == None
    requires i < |After(y, ops).pc| && i < |After(y, ops).k.procs| && WaitsOn(After(y, ops).k.procs[i]).Some?
    ensures After(y, ops).pc[i] == Waiting && !ZombieChild(After(y, ops), c, i)
  {
    RunKeeps(y, ops);
    var z := After(y, ops);
    FreeMeansNoLost(z.k, Good(z));
    hide KernelOk, NoLost, ReapsOk, MakersOk, LoopsOk, ParentsOk;
    assert PhaseOk(z, i);
    assert i in Good(z);
  }

  /** On every run no incarnation of a process is freed by wait twice. */
  lemma ReapedOnce(y: Sys, ops: seq<Op>, a: nat, b: nat)
    requires Boot(y) && Legal(y, ops)
    requires a < |After(y, ops).reaped| && b < |After(y, ops).reaped|
    requires After(y, ops).reaped[a].child == After(y, ops).reaped[b].child
    requires After(y, ops).reaped[a].gen == After(y, ops).reaped[b].gen
    ensures a == b
  {
    RunKeeps(y, ops);
    hide KernelOk, NoLost, MakersOk, LoopsOk, PhasesOk, ParentsOk;
  }

  /**
   wait frees only a zombie child of its caller, and only after the child has switched off its kernel stack for the last
   time.
   */
  lemma ReapedByParent(y: Sys, ops: seq<Op>, op: Op)
    requires Boot(y) && Legal(y, ops) && Allowed(After(y, ops), op)
    requires Do(After(y, ops), op).reaped != After(y, ops).reaped
    ensures var z, z' := After(y, ops), Do(After(y, ops), op);
            && |z'.reaped| == |z.reaped| + 1
            && var r := z'.reaped[|z.reaped|];
            && r.child < |z.pc| && z.parent[r.child] == Some(r.parent) && z.life[r.child] == Zombie
               && r.gen == z.gen[r.child]
            && z.k.procs[r.child].phase.Left? && z'.life[r.child] == Unused && z'.parent[r.child] == None
  {
    RunKeeps(y, ops);
    var z := After(y, ops);
    Pick(z, Actor(op));
    Pick(z, z.pc[op.i].n);
    hide KernelOk, NoLost, MakersOk, LoopsOk, PhasesOk, ParentsOk, ReapsOk;
  }

  /** No process has i for parent. */
  ghost predicate NoChild(y: Sys, i: nat) {
    forall c :: 0 <= c < |y.parent| ==> y.parent[c] != Some(i)
  }

  /**
   On every run a scan that found nothing to free gives up exactly if the process was killed or has no child, and goes
   to sleep on its own address otherwise.
   */
  lemma WaitGivesUp(y: Sys, ops: seq<Op>, i: nat, killed: bool)
    requires Boot(y) && Legal(y, ops) && Allowed(After(y, ops), ScanEnd(i, killed))
    ensures Do(After(y, ops), ScanEnd(i, killed)).pc[i]
         == if killed || NoChild(After(y, ops), i) then WaitDone(None) else Waiting
    ensures !(killed || NoChild(After(y, ops), i)) ==>
              Do(After(y, ops), ScanEnd(i, killed)).k == Apply(After(y, ops).k, CallSleep(i, i))
  {
    hide Legal, After, Invariant, Boot;
    RunKeeps(y, ops);
    GivesUpAt(After(y, ops), i, killed);
  }

  lemma GivesUpAt(z: Sys, i: nat, killed: bool)
    requires Invariant(z) && Allowed(z, ScanEnd(i, killed))
    ensures Do(z, ScanEnd(i, killed)).pc[i] == if killed || NoChild(z, i) then WaitDone(None) else Waiting
    ensures !(killed || NoChild(z, i)) ==> Do(z, ScanEnd(i, killed)).k == Apply(z.k, CallSleep(i, i))
  {
    Pick(z, i);
    hide KernelOk, NoLost, MakersOk, LoopsOk, PhasesOk, ParentsOk, ReapsOk, LifeAfter, ParentAfter, Apply;
    assert NoChild(z, i) <==> !HasKid(z, i, |z.pc|);
  }

  /** op, done at z, is what makes wait in process i return got. */
  ghost predicate EndsWait(z: Sys, op: Op, i: nat, got: Option<Reap>)
    requires Allowed(z, op)
  {
    match op
    case Scan(j, fails) =>
      && j == i && ZombieChild(z, z.pc[i].n, i)
      && got == if fails then None else Some(Reap(z.pc[i].n, z.gen[z.pc[i].n], i))
    case ScanEnd(j, killed) => j == i && (killed || NoChild(z, i)) && got == None
    case _ => false
  }

  /** Step m of the run is what makes wait in process i return got, and i has not left that call since. */
  ghost predicate EndedAt(y: Sys, ops: seq<Op>, i: nat, m: nat, got: Option<Reap>) {
    && m < |ops| && Legal(y, ops[..m]) && Allowed(After(y, ops[..m]), ops[m])
    && EndsWait(After(y, ops[..m]), ops[m], i, got)
    && (forall l :: m < l < |ops| ==> ops[l].Inner? || ops[l].i != i)
  }

  /**
   On every run a process about to return from wait has, in this call, freed the zombie child whose pid it returns, or
   failed to copy the status of a zombie child, or ended a scan killed, or ended a scan when it had no child. In
   particular a process that was woken looks again before it returns.
   */
  lemma {:induction false} WaitReturns(y: Sys, ops: seq<Op>, i: nat) returns (m: nat)
    requires Boot(y) && Legal(y, ops) && i < |After(y, ops).pc| && After(y, ops).pc[i].WaitDone?
    ensures EndedAt(y, ops, i, m, After(y, ops).pc[i].got)
    ensures After(y, ops).pc[i].got.Some? ==> After(y, ops).pc[i].got.value in After(y, ops).reaped
    decreases |ops|
  {
    hide Boot, Do, Allowed, EndsWait, Invariant;
    if ops == [] {
      BootWaitsNot(y, i);
      assert false;
    } else {
      var last := |ops| - 1;
      var z, op := After(y, ops[..last]), ops[last];
      RunKeeps(y, ops[..last]);
      if op.Inner? || op.i != i {
        OthersKeep(z, op, i);
        m := WaitReturns(y, ops[..last], i);
        assert ops[..last][..m] == ops[..m];
      } else {
        m := last;
        EndsNow(z, op, i);
      }
    }
  }

  lemma BootWaitsNot(y: Sys, i: nat)
    requires Boot(y) && i < |y.pc|
    ensures y.pc[i] == Free
  {
  }

  lemma OthersKeep(z: Sys, op: Op, i: nat)
    requires Allowed(z, op) && (op.Inner? || op.i != i) && i < |Do(z, op).pc|
    ensures i < |z.pc| && Do(z, op).pc[i] == z.pc[i] && z.reaped <= Do(z, op).reaped
  {
    hide KernelAfter, LifeAfter, ParentAfter;
  }

  lemma EndsNow(z: Sys, op: Op, i: nat)
    requires Invariant(z) && Allowed(z, op) && !op.Inner? && op.i == i && Do(z, op).pc[i].WaitDone?
    ensures EndsWait(z, op, i, Do(z, op).pc[i].got)
    ensures Do(z, op).pc[i].got.Some? ==> Do(z, op).pc[i].got.value in Do(z, op).reaped
  {
    if op.ScanEnd? {
      GivesUpAt(z, i, op.killed);
    }
    hide KernelAfter, LifeAfter, ParentAfter, Invariant;
  }

  // ----- nobody is stuck

  /** What keeps process i from going on: see Blocked; or wait_lock, or the lock of the child it looks at. */
  predicate Held(y: Sys, i: nat)
    requires i < |y.pc| == |y.k.procs| == |y.parent|
  {
    || Blocked(y.k, i)
    || (y.k.procs[i].phase.Out? && (y.k.procs[i].state != Running || y.k.lk.Some?))
    || (y.pc[i].Scanning? && y.pc[i].n < |y.pc| && y.parent[y.pc[i].n] == Some(i)
        && HoldsOwn(y.k.procs[y.pc[i].n].phase))
  }

  /** What process i does next. */
  ghost function NextOp(y: Sys, i: nat): Op
    requires i < |y.pc| == |y.k.procs|
  {
    if InProtocol(y.k.procs[i].phase) then Inner(NextStep(y.k, i))
    else
      match y.pc[i]
      case Free => WaitLock(i)
      case Forking(_) => ForkLock(i)
      case Linking(_) => ForkLink(i)
      case Linked(_) => ForkUnlock(i)
      case Starting(_) => ForkRun(i)
      case Reparenting(n) => if n < |y.pc| then Reparent(i) else ExitCall(i)
      case Passing(_) => PassCall(i)
      case PassWaking(_) => PassBack(i)
      case ParentWaking => ExitDie(i)
      case Scanning(n, _) => if n < |y.pc| then Scan(i, false) else ScanEnd(i, false)
      case Waiting => Rescan(i)
      case WaitDone(_) => WaitReturn(i)
  }

  /** On every run a process in fork, exit or wait can take its next step unless it is held up. */
  lemma NobodyStuck(y: Sys, ops: seq<Op>, i: nat)
    requires Boot(y) && Legal(y, ops) && i < |After(y, ops).pc| && Sized(After(y, ops)) && !Held(After(y, ops), i)
    requires After(y, ops).life[i] == Alive || InProtocol(After(y, ops).k.procs[i].phase)
    ensures Allowed(After(y, ops), NextOp(After(y, ops), i)) && Actor(NextOp(After(y, ops), i)) == i
  {
    RunKeeps(y, ops);
    hide Legal, After, Boot;
    GoesOnFrom(After(y, ops), i);
  }

  lemma GoesOnFrom(z: Sys, i: nat)
    requires Invariant(z) && i < |z.pc| && !Held(z, i) && (z.life[i] == Alive || InProtocol(z.k.procs[i].phase))
    ensures Allowed(z, NextOp(z, i)) && Actor(NextOp(z, i)) == i
  {
    hide KernelOk, NoLost, MakersOk, LoopsOk, PhasesOk, ParentsOk, ReapsOk, HasKid, LoopOk, Allowed, NextOp;
    if InProtocol(z.k.procs[i].phase) {
      GoesOn(z.k, i);
      InnerNext(z, i);
    } else {
      Pick(z, i);
      if z.pc[i].Starting? {
        Pick(z, z.pc[i].child);
      }
      OuterNext(z, i);
    }
  }

  lemma InnerNext(z: Sys, i: nat)
    requires Sized(z) && i < |z.pc| && InProtocol(z.k.procs[i].phase)
    requires Enabled(z.k, NextStep(z.k, i)) && NextStep(z.k, i).i == i
    ensures Allowed(z, NextOp(z, i)) && Actor(NextOp(z, i)) == i
  {
    hide Enabled;
  }

  lemma OuterNext(z: Sys, i: nat)
    requires Sized(z) && i < |z.pc| && !InProtocol(z.k.procs[i].phase) && z.life[i] == Alive && !Held(z, i)
    requires MakerOk(z, i) && ParentOk(z, i) && PhaseOk(z, i) && LoopOk(z, i)
    requires z.pc[i].Starting? ==> z.pc[i].child < |z.pc| && PhaseOk(z, z.pc[i].child)
    ensures Allowed(z, NextOp(z, i)) && Actor(NextOp(z, i)) == i
  {
    hide HasKid;
  }

  /** And it has no choice what to do next, but for what others decide: whether a copy fails, whether it is killed. */
  lemma NextIsForced(z: Sys, op: Op)
    requires Allowed(z, op) && !op.Inner? && z.pc[op.i] != Free && !InProtocol(z.k.procs[op.i].phase)
    ensures op == NextOp(z, op.i) || op == ForkFail(op.i) || op == Scan(op.i, true) || op == ScanEnd(op.i, true)
    ensures op.ForkFail? ==> z.pc[op.i].Forking?
  {
  }

  // ----- nobody keeps wait_lock

  /** How far a process that holds wait_lock is from letting go of it, in calls of the protocol, with n processes. */
  function CallsLeft(pc: Pc, ph: Phase<nat>, n: nat): int {
    match pc
    case Linking(_) => 2
    case Linked(_) => 1
    case Reparenting(m) => 3 * (n - m) + 3
    case Passing(m) => 3 * (n - m) + 2
    case PassWaking(m) => 3 * (n - m) + 1
    case ParentWaking => 2
    case Scanning(m, _) => n - m + 2
    case Waiting => if ph.In? then n + 3 else 0
    case WaitDone(_) => 1
    case _ => 0
  }

  /** How far it is from that: calls, and then steps inside the present one. */
  function Left(y: Sys, i: nat): (int, int)
    requires i < |y.pc| == |y.k.procs|
  {
    (CallsLeft(y.pc[i], y.k.procs[i].phase, |y.pc|), PhaseLeft(y.k.procs[i].phase, |y.pc|))
  }

  /**
   On every run, each step that a process makes while it holds wait_lock brings it closer to letting go of it, be it to
   return or to sleep.
   */
  lemma LetsGo(y: Sys, ops: seq<Op>, op: Op)
    requires Boot(y) && Legal(y, ops) && Allowed(After(y, ops), op) && (op.Inner? ==> IsProtocol(op.s))
    requires var z, i := After(y, ops), Actor(op);
             i < |z.k.procs| && HoldsLk(z.k.procs[i].phase) && HoldsLk(Do(z, op).k.procs[i].phase)
    ensures var z, i := After(y, ops), Actor(op);
            i < |z.pc| == |z.k.procs| && Less(Left(Do(z, op), i), Left(z, i))
  {
    RunKeeps(y, ops);
    hide Legal, After, Boot;
    StepLetsGo(After(y, ops), op);
  }

  /** What others do meanwhile does not take it further away. */
  lemma LeftKept(z: Sys, op: Op, i: nat)
    requires Allowed(z, op) && i < |z.pc| && i != Actor(op) && HoldsLk(z.k.procs[i].phase)
    ensures Left(Do(z, op), i) == Left(z, i)
  {
    OtherMoves(z, op, i);
    hide KernelAfter, LifeAfter, ParentAfter, PcAfter;
  }

  lemma StepLetsGo(z: Sys, op: Op)
    requires Invariant(z) && Allowed(z, op) && (op.Inner? ==> IsProtocol(op.s))
    requires HoldsLk(z.k.procs[Actor(op)].phase) && HoldsLk(Do(z, op).k.procs[Actor(op)].phase)
    ensures Less(Left(Do(z, op), Actor(op)), Left(z, Actor(op)))
  {
    var i := Actor(op);
    StepKeeps(z, op);
    Pick(z, i);
    Pick(Do(z, op), i);
    CallsBound(z, i);
    CallsBound(Do(z, op), i);
    PhaseLeftBound(z.k, i);
    PhaseLeftBound(Do(z, op).k, i);
    if op.Inner? {
      InnerCalls(z, op.s);
    } else {
      OuterCalls(z, op);
    }
    hide Invariant, Allowed, Do, PhaseLeft, CallsLeft, LoopOk, PhaseOk, MakerOk, ParentOk, MadeOk;
  }

  lemma CallsBound(z: Sys, i: nat)
    requires Sized(z) && i < |z.pc| && LoopOk(z, i)
    ensures CallsLeft(z.pc[i], z.k.procs[i].phase, |z.pc|) >= 0
  {
    hide HasKid;
  }

  lemma InnerCalls(z: Sys, s: Step<nat>)
    requires Sized(z) && KernelOk(z.k) && Allowed(z, Inner(s)) && IsProtocol(s) && PhaseOk(z, s.i)
    requires HoldsLk(z.k.procs[s.i].phase) && HoldsLk(Do(z, Inner(s)).k.procs[s.i].phase)
    ensures var z' := Do(z, Inner(s));
            && CallsLeft(z'.pc[s.i], z'.k.procs[s.i].phase, |z.pc|)
               == CallsLeft(z.pc[s.i], z.k.procs[s.i].phase, |z.pc|)
            && PhaseLeft(z'.k.procs[s.i].phase, |z.pc|) < PhaseLeft(z.k.procs[s.i].phase, |z.pc|)
  {
    ProtocolLetsGo(z.k, s);
    hide KernelOk, PhaseLeft, Woken;
  }

  lemma OuterCalls(z: Sys, op: Op)
    requires Allowed(z, op) && !op.Inner? && LoopOk(z, op.i) && PhaseOk(z, op.i)
    requires HoldsLk(z.k.procs[op.i].phase) && HoldsLk(Do(z, op).k.procs[op.i].phase)
    ensures var z', i := Do(z, op), op.i;
            CallsLeft(z'.pc[i], z'.k.procs[i].phase, |z.pc|) < CallsLeft(z.pc[i], z.k.procs[i].phase, |z.pc|)
  {
    hide HasKid, Woken, LifeAfter, ParentAfter;
  }
}
