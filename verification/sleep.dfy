/**
 sleep() and wakeup() (kernel/proc.c) for the users of one spinlock lk, at the
 grain of their lock operations, with any number of processes and channels.
 A process's own p->lock is held exactly in the phases HoldsOwn lists; a
 critical section that another process has on it (in wakeup, kill or wait) is
 one step, possible only while it is not held.
 */
module Sleep {
  import opened Common

  /**
   Where a process is. owes: channels its writes may have made ready, on which it must call
   wakeup before it lets go of lk. cleared: channels it has called wakeup on since it took lk.
   */
  datatype Phase<C> =
    | Out                                                          // not using lk
    | In(owes: set<C>, cleared: set<C>)                            // holds lk
    | Waking(chan: C, next: nat, owes: set<C>, cleared: set<C>)    // holds lk, in wakeup's loop
    | Enter(chan: C)                                               // in sleep: holds lk
    | Committed(chan: C)                                           // holds lk and p->lock
    | Falling(chan: C)                                             // holds p->lock, about to mark itself SLEEPING
    | Down(chan: C)                                                // marked, holds p->lock until switched away
    | Asleep(chan: C)                                              // off the CPU
    | Resumed(chan: C)                                             // running again, holds p->lock
    | Back                                                         // chan cleared, about to take lk again
    | LeaveLocked(cleared: set<C>)                                 // in exit: holds lk and p->lock
    | Leaving                                                      // holds p->lock
    | Left

  datatype RunState = Running | Runnable | Sleeping

  datatype Proc<C> = Proc(phase: Phase<C>, state: RunState, chan: Option<C>)

  datatype Kernel<C> = Kernel(procs: seq<Proc<C>>, lk: Option<nat>)

  predicate HoldsLk<C>(ph: Phase<C>) {
    ph.In? || ph.Waking? || ph.Enter? || ph.Committed? || ph.LeaveLocked?
  }

  predicate HoldsOwn<C>(ph: Phase<C>) {
    ph.Committed? || ph.Falling? || ph.Down? || ph.Resumed? || ph.LeaveLocked? || ph.Leaving?
  }

  datatype Step<C> =
    | Acquire(i: nat)
    | Release(i: nat)
    | Owe(i: nat, more: set<C>)            // a write under lk that may end the wait on these channels
    | Drop(i: nat)                         // gives up on the wakeups it owes
    | CallSleep(i: nat, c: C)
    | LockSelf(i: nat)
    | Fall(i: nat)                         // release(lk)
    | Doze(i: nat)                         // records the channel and marks itself SLEEPING
    | Switch(i: nat)
    | Kill(i: nat)
    | Schedule(i: nat)
    | Tidy(i: nat)                         // forgets the channel and releases p->lock
    | Reacquire(i: nat)
    | CallWakeup(i: nat, c: C)
    | WakeNext(i: nat)                     // wakeup's loop body for one process
    | WakeDone(i: nat)
    | Elsewhere(i: nat, state: RunState)   // sleeping, waking and yielding that do not involve lk
    | Leave(i: nat)
    | LeaveUnlock(i: nat)
    | LeaveSwitch(i: nat)
    | Reborn(i: nat)

  predicate Enabled<C(==)>(k: Kernel<C>, s: Step<C>) {
    s.i < |k.procs|
    && var p := k.procs[s.i];
    match s
    case Acquire(i) => p.phase.Out? && p.state == Running && k.lk == None
    case Release(i) => p.phase.In? && p.phase.owes == {}
    case Owe(i, more) => p.phase.In?
    case Drop(i) => p.phase.In?
    case CallSleep(i, c) => p.phase.In? && p.phase.owes == {}
    case LockSelf(i) => p.phase.Enter?
    case Fall(i) => p.phase.Committed?
    case Doze(i) => p.phase.Falling?
    case Switch(i) => p.phase.Down?
    case Kill(i) => !HoldsOwn(p.phase)
    case Schedule(i) => p.phase.Asleep? && p.state == Runnable
    case Tidy(i) => p.phase.Resumed?
    case Reacquire(i) => p.phase.Back? && k.lk == None
    case CallWakeup(i, c) => p.phase.In?
    case WakeNext(i) => p.phase.Waking? && p.phase.next < |k.procs|
                        && (p.phase.next == i || !HoldsOwn(k.procs[p.phase.next].phase))
    case WakeDone(i) => p.phase.Waking? && p.phase.next == |k.procs|
    case Elsewhere(i, state) => p.phase.Out?
    case Leave(i) => p.phase.In? && p.phase.owes == {}
    case LeaveUnlock(i) => p.phase.LeaveLocked?
    case LeaveSwitch(i) => p.phase.Leaving?
    case Reborn(i) => p.phase.Left?
  }

  function Put<C>(k: Kernel<C>, i: nat, p: Proc<C>): Kernel<C>
    requires i < |k.procs|
  {
    k.(procs := k.procs[i := p])
  }

  function AtPhase<C>(k: Kernel<C>, i: nat, ph: Phase<C>): Kernel<C>
    requires i < |k.procs|
  {
    Put(k, i, k.procs[i].(phase := ph))
  }

  /** The test in wakeup's loop. */
  function Woken<C(==)>(p: Proc<C>, c: C): Proc<C> {
    if p.state == Sleeping && p.chan == Some(c) then p.(state := Runnable) else p
  }

  function Apply<C(==)>(k: Kernel<C>, s: Step<C>): (k': Kernel<C>)
    requires Enabled(k, s)
    ensures |k'.procs| == |k.procs|
  {
    var p := k.procs[s.i];
    match s
    case Acquire(i) => AtPhase(k, i, In({}, {})).(lk := Some(i))
    case Release(i) => AtPhase(k, i, Out).(lk := None)
    case Owe(i, more) => AtPhase(k, i, In(p.phase.owes + more, p.phase.cleared))
    case Drop(i) => AtPhase(k, i, In({}, p.phase.cleared))
    case CallSleep(i, c) => AtPhase(k, i, Enter(c))
    case LockSelf(i) => AtPhase(k, i, Committed(p.phase.chan))
    case Fall(i) => AtPhase(k, i, Falling(p.phase.chan)).(lk := None)
    case Doze(i) => Put(k, i, Proc(Down(p.phase.chan), Sleeping, Some(p.phase.chan)))
    case Switch(i) => AtPhase(k, i, Asleep(p.phase.chan))
    case Kill(i) => if p.state == Sleeping then Put(k, i, p.(state := Runnable)) else k
    case Schedule(i) => Put(k, i, p.(phase := Resumed(p.phase.chan), state := Running))
    case Tidy(i) => Put(k, i, p.(phase := Back, chan := None))
    case Reacquire(i) => AtPhase(k, i, In({}, {})).(lk := Some(i))
    case CallWakeup(i, c) => AtPhase(k, i, Waking(c, 0, p.phase.owes, p.phase.cleared))
    case WakeNext(i) =>
      var ph := p.phase;
      var k1 := if ph.next == i then k else Put(k, ph.next, Woken(k.procs[ph.next], ph.chan));
      AtPhase(k1, i, ph.(next := ph.next + 1))
    case WakeDone(i) =>
      AtPhase(k, i, In(p.phase.owes - {p.phase.chan}, p.phase.cleared + {p.phase.chan}))
    case Elsewhere(i, state) => Put(k, i, p.(state := state))
    case Leave(i) => AtPhase(k, i, LeaveLocked(p.phase.cleared))
    case LeaveUnlock(i) => AtPhase(k, i, Leaving).(lk := None)
    case LeaveSwitch(i) => AtPhase(k, i, Left)
    case Reborn(i) => AtPhase(k, i, Out)
  }

  // ----- who is waiting

  /** The channel a process sleeps on, or has committed to sleep on after letting go of lk. */
  function WaitsOn<C>(p: Proc<C>): Option<C> {
    match p.phase
    case Falling(c) => Some(c)
    case Down(c) => Some(c)
    case Asleep(c) => if p.state == Sleeping then Some(c) else None
    case _ => None
  }

  /** A holder of lk is bound to reach process j with a wakeup on c. */
  predicate Pending<C(==)>(k: Kernel<C>, j: nat, c: C) {
    && k.lk.Some? && k.lk.value < |k.procs|
    && var ph := k.procs[k.lk.value].phase;
    || (ph.In? && c in ph.owes)
    || (ph.Waking? && (c in ph.owes || ph.chan == c) && (ph.chan == c ==> ph.next <= j))
  }

  function Cleared<C(!new)>(ph: Phase<C>): set<C> {
    if ph.In? || ph.Waking? || ph.LeaveLocked? then ph.cleared else {}
  }

  /** The fields of a process agree with where it is. */
  predicate FieldsOk<C(==)>(p: Proc<C>) {
    match p.phase
    case Down(c) => p.state == Sleeping && p.chan == Some(c)
    case Asleep(c) => p.state != Running && p.chan == Some(c)
    case Resumed(c) => p.state == Running && p.chan == Some(c)
    case Out => p.chan == None
    case Left => p.chan == None
    case _ => p.state == Running && p.chan == None
  }

  ghost predicate LocksOk<C>(k: Kernel<C>) {
    && (k.lk.Some? ==> k.lk.value < |k.procs|)
    && forall i :: 0 <= i < |k.procs| ==> (HoldsLk(k.procs[i].phase) <==> k.lk == Some(i))
  }

  /** Nobody waits on a channel that the holder of lk has finished waking, or among the processes it has passed. */
  ghost predicate WokenOk<C(!new)>(k: Kernel<C>) {
    k.lk.Some? && k.lk.value < |k.procs| ==>
      var ph := k.procs[k.lk.value].phase;
      && (forall j :: 0 <= j < |k.procs| && WaitsOn(k.procs[j]).Some? ==> WaitsOn(k.procs[j]).value !in Cleared(ph))
      && (ph.Waking? ==> ph.next <= |k.procs|
                         && forall j :: 0 <= j < ph.next ==> WaitsOn(k.procs[j]) != Some(ph.chan))
  }

  ghost predicate KernelOk<C(!new)>(k: Kernel<C>) {
    && LocksOk(k)
    && (forall i :: 0 <= i < |k.procs| ==> FieldsOk(k.procs[i]))
    && WokenOk(k)
  }

  /** Whoever waits on a channel has reason to (it is in good), or a wakeup is on its way. */
  ghost predicate NoLost<C(!new)>(k: Kernel<C>, good: set<C>) {
    forall j :: 0 <= j < |k.procs| ==>
      var p := k.procs[j];
      && (WaitsOn(p).Some? ==> WaitsOn(p).value in good || Pending(k, j, WaitsOn(p).value))
      && (p.phase.Enter? || p.phase.Committed? ==> p.phase.chan in good)
  }

  // ----- every step keeps this

  lemma StepKeepsLocks<C(!new)>(k: Kernel<C>, s: Step<C>)
    requires KernelOk(k) && Enabled(k, s)
    ensures LocksOk(Apply(k, s))
  {
    hide FieldsOk, WokenOk;
  }

  lemma StepKeepsFields<C(!new)>(k: Kernel<C>, s: Step<C>)
    requires KernelOk(k) && Enabled(k, s)
    ensures forall i :: 0 <= i < |k.procs| ==> FieldsOk(Apply(k, s).procs[i])
  {
    hide WokenOk;
  }

  /** A step moves only the process that takes it. */
  lemma StepMovesOne<C(!new)>(k: Kernel<C>, s: Step<C>, j: nat)
    requires Enabled(k, s) && j < |k.procs| && j != s.i
    ensures Apply(k, s).procs[j].phase == k.procs[j].phase
  {
  }

  /** A step makes no process wait, except the one that lets go of lk to sleep. */
  lemma StepWaits<C(!new)>(k: Kernel<C>, s: Step<C>, j: nat)
    requires KernelOk(k) && Enabled(k, s) && j < |k.procs|
    ensures var w := WaitsOn(Apply(k, s).procs[j]);
            w.Some? ==> w == WaitsOn(k.procs[j]) || (s.Fall? && s.i == j && k.procs[j].phase == Committed(w.value))
  {
    hide LocksOk, WokenOk;
  }

  /** wakeup reaches the processes in turn: the one it looks at does not wait on the channel any more. */
  lemma WakeNextPasses<C(!new)>(k: Kernel<C>, i: nat)
    requires KernelOk(k) && Enabled(k, WakeNext(i))
    ensures WaitsOn(Apply(k, WakeNext(i)).procs[k.procs[i].phase.next]) != Some(k.procs[i].phase.chan)
  {
    hide LocksOk, WokenOk;
  }

  /** With lk held after the step, process j keeps out of what the holder has cleared or passed. */
  lemma StepKeepsWokenAt<C(!new)>(k: Kernel<C>, s: Step<C>, j: nat)
    requires KernelOk(k) && Enabled(k, s) && j < |k.procs|
    ensures var k' := Apply(k, s);
            k'.lk.Some? && k'.lk.value < |k'.procs| ==>
              var ph, w := k'.procs[k'.lk.value].phase, WaitsOn(k'.procs[j]);
              && (w.Some? ==> w.value !in Cleared(ph))
              && (ph.Waking? ==> ph.next <= |k'.procs| && (j < ph.next ==> w != Some(ph.chan)))
  {
    StepWaits(k, s, j);
    if s.WakeNext? || s.WakeDone? {
      WakeKeepsWokenAt(k, s, j);
    } else {
      hide FieldsOk, WaitsOn, Woken;
    }
  }

  lemma WakeKeepsWokenAt<C(!new)>(k: Kernel<C>, s: Step<C>, j: nat)
    requires KernelOk(k) && Enabled(k, s) && j < |k.procs| && (s.WakeNext? || s.WakeDone?)
    ensures var k' := Apply(k, s);
            k'.lk.Some? && k'.lk.value < |k'.procs| ==>
              var ph, w := k'.procs[k'.lk.value].phase, WaitsOn(k'.procs[j]);
              && (w.Some? ==> w.value !in Cleared(ph))
              && (ph.Waking? ==> ph.next <= |k'.procs| && (j < ph.next ==> w != Some(ph.chan)))
  {
    StepWaits(k, s, j);
    if s.WakeNext? {
      WakeNextPasses(k, s.i);
    }
    assert HoldsLk(k.procs[s.i].phase);
    hide FieldsOk, WaitsOn, Woken;
  }

  lemma StepKeepsWoken<C(!new)>(k: Kernel<C>, s: Step<C>)
    requires KernelOk(k) && Enabled(k, s)
    ensures WokenOk(Apply(k, s))
  {
    hide KernelOk, Apply, Enabled, Cleared, WaitsOn;
    var k' := Apply(k, s);
    forall j | 0 <= j < |k'.procs|
      ensures k'.lk.Some? && k'.lk.value < |k'.procs| ==>
                var ph, w := k'.procs[k'.lk.value].phase, WaitsOn(k'.procs[j]);
                && (w.Some? ==> w.value !in Cleared(ph))
                && (ph.Waking? ==> ph.next <= |k'.procs| && (j < ph.next ==> w != Some(ph.chan)))
    {
      StepKeepsWokenAt(k, s, j);
    }
  }

  lemma StepKeepsKernel<C(!new)>(k: Kernel<C>, s: Step<C>)
    requires KernelOk(k) && Enabled(k, s)
    ensures KernelOk(Apply(k, s))
  {
    hide LocksOk, FieldsOk, WokenOk;
    StepKeepsLocks(k, s);
    StepKeepsFields(k, s);
    StepKeepsWoken(k, s);
  }

  /** A wakeup on its way to a process that still waits stays on its way. */
  lemma StepKeepsPending<C(!new)>(k: Kernel<C>, s: Step<C>, j: nat, c: C)
    requires KernelOk(k) && Enabled(k, s) && j < |k.procs| && Pending(k, j, c) && !s.Drop?
    requires WaitsOn(k.procs[j]) == Some(c) && WaitsOn(Apply(k, s).procs[j]) == Some(c)
    ensures Pending(Apply(k, s), j, c)
  {
    if s.WakeNext? {
      WakeNextPasses(k, s.i);
    }
    hide FieldsOk, WaitsOn;
  }

  /**
   No step of the protocol loses a wakeup, as long as sleep is only called, and wakeups only dropped, with good reason.
   */
  lemma StepKeepsNoLost<C(!new)>(k: Kernel<C>, s: Step<C>, good: set<C>)
    requires KernelOk(k) && Enabled(k, s) && NoLost(k, good)
    requires s.CallSleep? ==> s.c in good
    requires s.Drop? ==> k.procs[s.i].phase.owes <= good
    ensures NoLost(Apply(k, s), good)
  {
    var k' := Apply(k, s);
    forall j | 0 <= j < |k'.procs|
      ensures WaitsOn(k'.procs[j]).Some? ==>
                WaitsOn(k'.procs[j]).value in good || Pending(k', j, WaitsOn(k'.procs[j]).value)
    {
      StepWaits(k, s, j);
      if WaitsOn(k'.procs[j]).Some? && WaitsOn(k'.procs[j]) == WaitsOn(k.procs[j]) {
        var c := WaitsOn(k'.procs[j]).value;
        DropCovers(k, s, good, j, c);
        if c !in good {
          StepKeepsPending(k, s, j, c);
        }
      }
    }
    forall j | 0 <= j < |k'.procs|
      ensures k'.procs[j].phase.Enter? || k'.procs[j].phase.Committed? ==> k'.procs[j].phase.chan in good
    {
      StepEnters(k, s, j, good);
    }
  }

  lemma DropCovers<C(!new)>(k: Kernel<C>, s: Step<C>, good: set<C>, j: nat, c: C)
    requires KernelOk(k) && Enabled(k, s)
    requires s.Drop? ==> k.procs[s.i].phase.owes <= good
    ensures s.Drop? && Pending(k, j, c) ==> c in good
  {
    if s.Drop? {
      assert HoldsLk(k.procs[s.i].phase);
    }
  }

  lemma StepEnters<C(!new)>(k: Kernel<C>, s: Step<C>, j: nat, good: set<C>)
    requires KernelOk(k) && Enabled(k, s) && NoLost(k, good) && j < |k.procs|
    requires s.CallSleep? ==> s.c in good
    ensures var ph := Apply(k, s).procs[j].phase; ph.Enter? || ph.Committed? ==> ph.chan in good
  {
    hide KernelOk, Pending, WaitsOn;
  }

  /** The holder of lk may change the data: what it makes ready must be owed a wakeup, or already woken. */
  lemma WriteKeepsNoLost<C(!new)>(k: Kernel<C>, i: nat, good: set<C>, good': set<C>)
    requires KernelOk(k) && NoLost(k, good) && i < |k.procs|
    requires var ph := k.procs[i].phase;
             (ph.In? && good - good' <= ph.owes + ph.cleared) || (ph.LeaveLocked? && good - good' <= ph.cleared)
    ensures NoLost(k, good')
  {
    assert HoldsLk(k.procs[i].phase) && k.lk == Some(i);
    forall j | 0 <= j < |k.procs|
      ensures WaitsOn(k.procs[j]).Some? ==>
                WaitsOn(k.procs[j]).value in good' || Pending(k, j, WaitsOn(k.procs[j]).value)
      ensures !k.procs[j].phase.Enter? && !k.procs[j].phase.Committed?
    {
      assert HoldsLk(k.procs[j].phase) ==> j == i;
      if WaitsOn(k.procs[j]).Some? && WaitsOn(k.procs[j]).value in good - good' {
        assert WaitsOn(k.procs[j]).value !in Cleared(k.procs[i].phase);
      }
    }
  }

  /** With lk free, everybody who waits has reason to. */
  lemma FreeMeansNoLost<C(!new)>(k: Kernel<C>, good: set<C>)
    requires KernelOk(k) && NoLost(k, good) && k.lk == None
    ensures forall j :: 0 <= j < |k.procs| && WaitsOn(k.procs[j]).Some? ==> WaitsOn(k.procs[j]).value in good
  {
  }

  /** At boot nobody uses lk. */
  lemma BootOk<C(!new)>(k: Kernel<C>, good: set<C>)
    requires k.lk == None && forall i :: 0 <= i < |k.procs| ==>
               (k.procs[i].phase.Out? || k.procs[i].phase.Left?) && k.procs[i].chan == None
    ensures KernelOk(k) && NoLost(k, good)
  {
  }

  // ----- nobody is stuck

  /** In sleep, wakeup or exit's last steps, where the protocol alone says what comes next. */
  predicate InProtocol<C>(ph: Phase<C>) {
    !ph.Out? && !ph.In? && !ph.Left?
  }

  /** What keeps such a process from going on: nobody has made it runnable, or a lock that another process holds. */
  predicate Blocked<C(==)>(k: Kernel<C>, i: nat)
    requires i < |k.procs|
  {
    var p := k.procs[i];
    || (p.phase.Asleep? && p.state == Sleeping)
    || (p.phase.Back? && k.lk.Some?)
    || (p.phase.Waking? && p.phase.next < |k.procs| && p.phase.next != i && HoldsOwn(k.procs[p.phase.next].phase))
  }

  function NextStep<C>(k: Kernel<C>, i: nat): Step<C>
    requires i < |k.procs|
  {
    match k.procs[i].phase
    case Enter(_) => LockSelf(i)
    case Committed(_) => Fall(i)
    case Falling(_) => Doze(i)
    case Down(_) => Switch(i)
    case Asleep(_) => Schedule(i)
    case Resumed(_) => Tidy(i)
    case Back => Reacquire(i)
    case Waking(_, next, _, _) => if next < |k.procs| then WakeNext(i) else WakeDone(i)
    case LeaveLocked(_) => LeaveUnlock(i)
    case _ => LeaveSwitch(i)
  }

  /** A process in the protocol can take its next step unless it is blocked. */
  lemma GoesOn<C(!new)>(k: Kernel<C>, i: nat)
    requires KernelOk(k) && i < |k.procs| && InProtocol(k.procs[i].phase) && !Blocked(k, i)
    ensures Enabled(k, NextStep(k, i)) && NextStep(k, i).i == i
  {
    assert FieldsOk(k.procs[i]);
    assert HoldsLk(k.procs[i].phase) <==> k.lk == Some(i);
  }

  /** Whoever holds a process's own lock, or lk without being in wakeup, is not blocked; so locks come free. */
  lemma HoldersGoOn<C(!new)>(k: Kernel<C>, i: nat)
    requires KernelOk(k) && i < |k.procs|
    requires HoldsOwn(k.procs[i].phase) || (HoldsLk(k.procs[i].phase) && !k.procs[i].phase.Waking?)
    ensures !Blocked(k, i) && (InProtocol(k.procs[i].phase) ==> Enabled(k, NextStep(k, i)))
  {
    if InProtocol(k.procs[i].phase) {
      GoesOn(k, i);
    }
  }

  // ----- nobody keeps the lock

  /** How many steps a process in the protocol has, among n, before it lets go of lk or is out of the protocol. */
  function PhaseLeft<C>(ph: Phase<C>, n: nat): int {
    match ph
    case Waking(_, next, _, _) => n - next + 1
    case Enter(_) => 2
    case Committed(_) => 1
    case LeaveLocked(_) => 1
    case _ => 0
  }

  /** Pairs of natural numbers in dictionary order, which has no infinite descent. */
  predicate Less(a: (int, int), b: (int, int)) {
    0 <= a.0 && 0 <= a.1 && 0 <= b.0 && 0 <= b.1 && (a.0 < b.0 || (a.0 == b.0 && a.1 < b.1))
  }

  lemma PhaseLeftBound<C(!new)>(k: Kernel<C>, i: nat)
    requires KernelOk(k) && i < |k.procs|
    ensures 0 <= PhaseLeft(k.procs[i].phase, |k.procs|)
  {
    assert HoldsLk(k.procs[i].phase) <==> k.lk == Some(i);
  }

  /** Steps that a process makes inside sleep, wakeup and the end of exit. */
  predicate IsProtocol<C>(s: Step<C>) {
    s.LockSelf? || s.Fall? || s.Doze? || s.Switch? || s.Schedule? || s.Tidy? || s.Reacquire? || s.WakeNext?
    || s.WakeDone? || s.LeaveUnlock? || s.LeaveSwitch?
  }

  /** Each step with lk held brings a process closer to letting go of it; in particular wakeup comes to its end. */
  lemma ProtocolLetsGo<C(!new)>(k: Kernel<C>, s: Step<C>)
    requires KernelOk(k) && Enabled(k, s) && IsProtocol(s)
    requires HoldsLk(k.procs[s.i].phase) && HoldsLk(Apply(k, s).procs[s.i].phase)
    ensures PhaseLeft(Apply(k, s).procs[s.i].phase, |k.procs|) < PhaseLeft(k.procs[s.i].phase, |k.procs|)
  {
    hide Woken;
  }

  /** No step but its own touches a process, except that wakeup makes those that sleep on its channel runnable. */
  lemma OthersUntouched<C>(k: Kernel<C>, s: Step<C>, j: nat)
    requires Enabled(k, s) && j < |k.procs| && j != s.i
    ensures var p, p' := k.procs[j], Apply(k, s).procs[j];
            || p' == p
            || (&& s.WakeNext? && k.procs[s.i].phase.next == j && p.state == Sleeping
                && p.chan == Some(k.procs[s.i].phase.chan) && p' == p.(state := Runnable))
  {
  }

  /** And wakeup, when it comes by, makes them runnable; so does kill with whatever the process sleeps on. */
  lemma WokenCanRun<C>(k: Kernel<C>, s: Step<C>, j: nat)
    requires Enabled(k, s) && j < |k.procs| && k.procs[j].phase.Asleep?
    requires s == Kill(j) || (s.WakeNext? && s.i != j && k.procs[s.i].phase.next == j
                              && k.procs[j].chan == Some(k.procs[s.i].phase.chan))
    requires k.procs[j].state != Running
    ensures Enabled(Apply(k, s), Schedule(j))
  {
  }
}
