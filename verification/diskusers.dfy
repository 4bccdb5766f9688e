/**
 The users of vdisk_lock (kernel/virtio_disk.c): any number of processes in virtio_disk_rw and any number of interrupt
 handlers, on the sleep/wakeup protocol of module Sleep and the queue of module Virtqueue. vdisk_lock is the protocol's
 lk; the channels are the address of disk.free[0] and the addresses of the buffers.
 */
module DiskUsers {
  import opened Common
  import opened Sleep
  import Virtio
  import V = Virtqueue

  datatype Chan = FreeDesc | Buffer(b: nat)

  datatype Pc =
    | Idle                               // in neither function
    | Wanting(buf: nat, req: V.Header, gave: nat)    // in the loop around alloc3_desc, which has given back gave
    | Posting(buf: nat, h: nat, req: V.Header)   // the chain is made, avail->idx is not advanced yet
    | Waiting(buf: nat, h: nat, req: V.Header)   // in the loop around sleep(b, ...)
    | Freed(left: nat)                   // free_chain has been called, with so many of its wakeups still to come
    | Handling                           // in virtio_disk_intr's loop
    | Cleared(b: nat)                    // b->disk is cleared, before the wakeup on b

  datatype Sys = Sys(k: Kernel<Chan>, pc: seq<Pc>, q: V.Queue)

  datatype Op =
    | Begin(i: nat, buf: nat, req: V.Header)
    | Retry(i: nat)                      // alloc3_desc gives back what it took, which wakes the others
    | SleepFree(i: nat)
    | Prepare(i: nat, idx: seq<nat>)
    | Publish(i: nat)
    | SleepBuf(i: nat)
    | Finish(i: nat)
    | WakeFree(i: nat)
    | End(i: nat)
    | IntrBegin(i: nat)
    | IntrOne(i: nat)
    | IntrWake(i: nat)
    | IntrEnd(i: nat)
    | Device(op: V.Op)
    | Inner(s: Step<Chan>)               // a step inside sleep or wakeup, of the scheduler, or not involving the lock

  predicate IsInner(s: Step<Chan>) {
    s.LockSelf? || s.Fall? || s.Doze? || s.Switch? || s.Schedule? || s.Tidy? || s.Reacquire?
    || s.WakeNext? || s.WakeDone? || s.Elsewhere? || s.Kill?
  }

  /** There are three free descriptors. */
  ghost predicate Three(m: V.Memory) {
    exists i, j, l :: 0 <= i < j < l < |m.free| && m.free[i] && m.free[j] && m.free[l]
  }

  /** Sleeping on disk.free[0] is right while there are too few descriptors, sleeping on b while b->disk is set. */
  ghost function Good(m: V.Memory): set<Chan> {
    (if Three(m) then {} else {FreeDesc}) + set b | b in m.disk :: Buffer(b)
  }

  function At(y: Sys, i: nat): Pc {
    if i < |y.pc| then y.pc[i] else Idle
  }

  predicate InLk(y: Sys, i: nat) {
    i < |y.pc| && i < |y.k.procs| && y.k.procs[i].phase.In?
  }

  /** The buffer that the next completion is for. */
  function Completed(m: V.Memory): nat {
    if !V.Sized(m) then 0
    else
      var id := m.usedRing[m.driverIdx % Virtio.NUM];
      if id < Virtio.NUM && m.info[id].buf.Some? then m.info[id].buf.value else 0
  }

  /** What the step does in the protocol. */
  function KernelStep(y: Sys, op: Op): Step<Chan> {
    match op
    case Begin(i, buf, req) => Acquire(i)
    case Retry(i) => CallWakeup(i, FreeDesc)
    case SleepFree(i) => CallSleep(i, FreeDesc)
    case Prepare(i, idx) => Owe(i, {})
    case Publish(i) => Owe(i, {})
    case SleepBuf(i) => CallSleep(i, Buffer(if At(y, i).Waiting? then At(y, i).buf else 0))
    case Finish(i) => Owe(i, {FreeDesc})
    case WakeFree(i) => CallWakeup(i, FreeDesc)
    case End(i) => Release(i)
    case IntrBegin(i) => Acquire(i)
    case IntrOne(i) => Owe(i, {Buffer(Completed(y.q.m))})
    case IntrWake(i) => CallWakeup(i, Buffer(if At(y, i).Cleared? then At(y, i).b else 0))
    case IntrEnd(i) => Release(i)
    case Device(_) => Kill(0)            // the device is no process; Do does not use this
    case Inner(s) => s
  }

  /** What it does in the queue. */
  function QueueStep(y: Sys, op: Op): Option<V.Op> {
    match op
    case Prepare(i, idx) => if At(y, i).Wanting? then Some(V.Prepare(At(y, i).buf, At(y, i).req, idx)) else None
    case Publish(i) => Some(V.Publish)
    case Finish(i) => if At(y, i).Waiting? then Some(V.Finish(At(y, i).h)) else None
    case IntrOne(i) => Some(V.Intr)
    case Device(o) => Some(o)
    case _ => None
  }

  function NextPc(y: Sys, op: Op): Pc {
    match op
    case Begin(i, buf, req) => Wanting(buf, req, 0)
    case Prepare(i, idx) =>
      if At(y, i).Wanting? && idx != [] then Posting(At(y, i).buf, idx[0], At(y, i).req) else At(y, i)
    case Publish(i) => if At(y, i).Posting? then Waiting(At(y, i).buf, At(y, i).h, At(y, i).req) else At(y, i)
    case Finish(i) => Freed(3)
    case End(i) => Idle
    case IntrBegin(i) => Handling
    case IntrOne(i) => Cleared(Completed(y.q.m))
    case IntrWake(i) => Handling
    case IntrEnd(i) => Idle
    case Retry(i) => if At(y, i).Wanting? then At(y, i).(gave := At(y, i).gave + 1) else At(y, i)
    case SleepFree(i) => if At(y, i).Wanting? then At(y, i).(gave := 0) else At(y, i)
    case SleepBuf(i) => At(y, i)
    case WakeFree(i) => if At(y, i).Freed? && At(y, i).left > 0 then Freed(At(y, i).left - 1) else At(y, i)
    case Device(_) => Idle
    case Inner(s) => At(y, s.i)
  }

  ghost predicate Guard(y: Sys, op: Op) {
    match op
    case Begin(i, buf, req) => At(y, i).Idle?
    case Retry(i) => At(y, i).Wanting? && !Three(y.q.m) && At(y, i).gave < 2
    case SleepFree(i) => At(y, i).Wanting? && !Three(y.q.m)
    case Prepare(i, idx) => At(y, i).Wanting? && InLk(y, i)
    case Publish(i) => At(y, i).Posting? && InLk(y, i)
    case SleepBuf(i) => At(y, i).Waiting? && At(y, i).buf in y.q.m.disk
    case Finish(i) => At(y, i).Waiting? && At(y, i).buf !in y.q.m.disk && InLk(y, i)
    case WakeFree(i) => At(y, i).Freed? && At(y, i).left > 0
    case End(i) => At(y, i) == Freed(0)
    case IntrBegin(i) => At(y, i).Idle?
    case IntrOne(i) => At(y, i).Handling? && InLk(y, i)
    case IntrWake(i) => At(y, i).Cleared?
    case IntrEnd(i) => At(y, i).Handling? && y.q.m.driverIdx == y.q.m.usedIdx
    case Device(o) => o.Fetch? || o.Complete?
    case Inner(s) => IsInner(s)
  }

  ghost predicate Allowed(y: Sys, op: Op) {
    && Guard(y, op)
    && (!op.Device? ==> KernelStep(y, op).i < |y.pc| && Enabled(y.k, KernelStep(y, op)))
    && (QueueStep(y, op).Some? ==> V.Allowed(y.q, QueueStep(y, op).value))
  }

  ghost function Do(y: Sys, op: Op): Sys
    requires Allowed(y, op)
  {
    var q := if QueueStep(y, op).Some? then V.Do(y.q, QueueStep(y, op).value) else y.q;
    if op.Device? then y.(q := q)
    else Sys(Apply(y.k, KernelStep(y, op)), y.pc[KernelStep(y, op).i := NextPc(y, op)], q)
  }

  // ----- the invariant

  predicate SleepsOn(ph: Phase<Chan>, c: Chan) {
    match ph
    case Enter(d) => d == c
    case Committed(d) => d == c
    case Falling(d) => d == c
    case Down(d) => d == c
    case Asleep(d) => d == c
    case Resumed(d) => d == c
    case Back => true
    case _ => false
  }

  /** The phases of the protocol in which a process can be, for each place in the two functions. */
  predicate PhaseFits(pc: Pc, ph: Phase<Chan>) {
    match pc
    case Idle => ph.Out?
    case Wanting(_, _, gave) =>
      gave <= 2 && ((ph.In? && ph.owes == {}) || (ph.Waking? && ph.owes == {}) || SleepsOn(ph, FreeDesc))
    case Posting(_, _, _) => ph.In? && ph.owes == {}
    case Waiting(b, _, _) => (ph.In? && ph.owes == {}) || SleepsOn(ph, Buffer(b))
    case Freed(left) =>
      && left <= 3
      && ((ph.In? && ph.owes <= {FreeDesc} && (left < 3 ==> ph.owes == {}))
          || (ph.Waking? && ph.chan == FreeDesc && ph.owes <= {FreeDesc} && left < 3))
    case Handling => (ph.In? && ph.owes == {}) || (ph.Waking? && ph.owes <= {ph.chan})
    case Cleared(b) => ph.In? && ph.owes == {Buffer(b)}
  }

  /** The queue is between Prepare and Publish exactly while a process, which holds the lock, is posting. */
  ghost predicate PostingOk(y: Sys) {
    && (y.q.m.locked.Some? ==> exists i :: 0 <= i < |y.pc| && y.pc[i].Posting?)
    && (forall i :: 0 <= i < |y.pc| && y.pc[i].Posting? ==> y.q.m.locked.Some?)
  }

  /** A process has the request that it was called for in the queue, posted unless it is still posting it. */
  ghost predicate ClaimOk(q: V.Queue, pc: Pc) {
    pc.Posting? || pc.Waiting? ==>
      && pc.h in q.p.chains && q.p.chains[pc.h].buf == pc.buf && q.p.chains[pc.h].req == pc.req
      && if pc.Posting? then q.m.locked == Some(pc.h) else !q.p.chains[pc.h].stage.Prepared?
  }

  /** No two processes have the same one. */
  predicate Apart(pc: Pc, other: Pc) {
    (pc.Posting? || pc.Waiting?) && (other.Posting? || other.Waiting?) ==> pc.h != other.h
  }

  ghost predicate ClaimsOk(y: Sys) {
    && (forall i :: 0 <= i < |y.pc| ==> ClaimOk(y.q, y.pc[i]))
    && (forall i, j :: 0 <= i < j < |y.pc| ==> Apart(y.pc[i], y.pc[j]))
  }

  ghost predicate Invariant(y: Sys) {
    && KernelOk(y.k) && NoLost(y.k, Good(y.q.m)) && V.Invariant(y.q)
    && |y.pc| == |y.k.procs|
    && (forall i :: 0 <= i < |y.pc| ==> PhaseFits(y.pc[i], y.k.procs[i].phase))
    && PostingOk(y) && ClaimsOk(y)
  }

  // ----- every step keeps it

  lemma StepPhases(y: Sys, op: Op, j: nat)
    requires Invariant(y) && Allowed(y, op) && j < |y.pc|
    ensures var y' := Do(y, op);
            |y'.pc| == |y.pc| && |y'.k.procs| == |y.pc| && PhaseFits(y'.pc[j], y'.k.procs[j].phase)
  {
    hide KernelOk, NoLost, V.Invariant, V.Allowed, V.Do, Good;
    assert PhaseFits(y.pc[j], y.k.procs[j].phase);
    if op.Device? {
    } else if j != KernelStep(y, op).i {
      hide PhaseFits, Apply, Enabled;
      StepMovesOne(y.k, KernelStep(y, op), j);
    } else if op.Inner? {
      InnerPhase(y.k, op.s, y.pc[j]);
    } else {
      OuterPhase(y, op);
    }
  }

  lemma InnerPhase(k: Kernel<Chan>, s: Step<Chan>, pc: Pc)
    requires IsInner(s) && Enabled(k, s) && PhaseFits(pc, k.procs[s.i].phase)
    ensures PhaseFits(pc, Apply(k, s).procs[s.i].phase)
  {
    hide Woken;
  }

  lemma OuterPhase(y: Sys, op: Op)
    requires Allowed(y, op) && !op.Inner? && !op.Device? && |y.pc| == |y.k.procs|
    requires PhaseFits(y.pc[op.i], y.k.procs[op.i].phase)
    ensures var y' := Do(y, op);
            |y'.pc| == |y.pc| && |y'.k.procs| == |y.pc| && PhaseFits(y'.pc[op.i], y'.k.procs[op.i].phase)
  {
    hide Woken, V.Allowed, V.Do, Good, Three, Completed;
  }

  /** What a queue step makes ready, the process has owed before. */
  lemma ReadyIsOwed(q: V.Queue, o: V.Op)
    requires V.Allowed(q, o)
    ensures Good(q.m) - Good(V.Do(q, o).m)
            <= if o.Finish? then {FreeDesc} else if o.Intr? then {Buffer(Completed(q.m))} else {}
  {
    var m, m' := q.m, V.Do(q, o).m;
    if !o.Finish? && Three(m') {
      FewerFree(q, o);
    }
  }

  /** Only Finish frees descriptors. */
  lemma FewerFree(q: V.Queue, o: V.Op)
    requires V.Allowed(q, o) && !o.Finish?
    ensures Three(V.Do(q, o).m) ==> Three(q.m)
  {
    var m, m' := q.m, V.Do(q, o).m;
    assert forall d :: 0 <= d < |m'.free| && m'.free[d] ==> d < |m.free| && m.free[d];
    if Three(m') {
      var i, j, l :| 0 <= i < j < l < |m'.free| && m'.free[i] && m'.free[j] && m'.free[l];
      assert m.free[i] && m.free[j] && m.free[l];
    }
  }

  lemma StepNoLost(y: Sys, op: Op)
    requires Invariant(y) && Allowed(y, op)
    ensures KernelOk(Do(y, op).k) && NoLost(Do(y, op).k, Good(Do(y, op).q.m))
  {
    hide KernelOk, NoLost, V.Invariant, V.Allowed, V.Do;
    var q := y.q;
    if op.Device? {
      ReadyIsOwed(q, op.op);
      SameGood(q, op.op);
    } else {
      var s := KernelStep(y, op);
      SleepIsGood(y, op);
      StepKeepsKernel(y.k, s);
      StepKeepsNoLost(y.k, s, Good(q.m));
      if QueueStep(y, op).Some? {
        ReadyIsOwed(q, QueueStep(y, op).value);
        WriterOwes(y, op);
        hide Good;
        WriteKeepsNoLost(Apply(y.k, s), s.i, Good(q.m), Good(Do(y, op).q.m));
      }
    }
  }

  lemma SleepIsGood(y: Sys, op: Op)
    requires Allowed(y, op) && !op.Device?
    ensures KernelStep(y, op).CallSleep? ==> KernelStep(y, op).c in Good(y.q.m)
    ensures !KernelStep(y, op).Drop?
  {
    hide V.Allowed, Enabled;
  }

  lemma WriterOwes(y: Sys, op: Op)
    requires Allowed(y, op) && !op.Device? && QueueStep(y, op).Some? && |y.pc| == |y.k.procs|
    ensures var ph := Apply(y.k, KernelStep(y, op)).procs[KernelStep(y, op).i].phase;
            var o := QueueStep(y, op).value;
            && ph.In?
            && (if o.Finish? then {FreeDesc} else if o.Intr? then {Buffer(Completed(y.q.m))} else {}) <= ph.owes
  {
    hide V.Allowed, Good, Three, Completed;
  }

  lemma SameGood(q: V.Queue, o: V.Op)
    requires V.Allowed(q, o) && (o.Fetch? || o.Complete?)
    ensures Good(V.Do(q, o).m) == Good(q.m)
  {
    assert V.Do(q, o).m.free == q.m.free && V.Do(q, o).m.disk == q.m.disk;
  }

  lemma StepQueue(y: Sys, op: Op)
    requires Invariant(y) && Allowed(y, op)
    ensures V.Invariant(Do(y, op).q)
  {
    hide V.Invariant, V.Allowed, V.Do, KernelOk, NoLost, PhaseFits, PostingOk;
    if QueueStep(y, op).Some? {
      V.StepKeeps(y.q, QueueStep(y, op).value);
    }
  }

  /** Two processes that are posting both hold the lock, so there is only one. */
  lemma OnePosting(y: Sys, i: nat, j: nat)
    requires Invariant(y) && i < |y.pc| && j < |y.pc| && y.pc[i].Posting? && y.pc[j].Posting?
    ensures i == j
  {
    assert PhaseFits(y.pc[i], y.k.procs[i].phase) && PhaseFits(y.pc[j], y.k.procs[j].phase);
    assert HoldsLk(y.k.procs[i].phase) && HoldsLk(y.k.procs[j].phase);
  }

  lemma LockedAfter(q: V.Queue, o: V.Op)
    requires V.Allowed(q, o)
    ensures V.Do(q, o).m.locked.Some? <==> o.Prepare? || (q.m.locked.Some? && !o.Publish?)
    ensures o.Prepare? ==> q.m.locked == None
  {
  }

  lemma PrepareHasHead(y: Sys, op: Op)
    requires Allowed(y, op) && op.Prepare?
    ensures op.idx != []
  {
  }

  lemma StepPosting(y: Sys, op: Op)
    requires Invariant(y) && Allowed(y, op)
    ensures PostingOk(Do(y, op))
  {
    hide V.Invariant, V.Allowed, V.Do, KernelOk, NoLost, PhaseFits, Apply, Enabled;
    if QueueStep(y, op).Some? {
      LockedAfter(y.q, QueueStep(y, op).value);
    }
    var y' := Do(y, op);
    if op.Publish? {
      forall j | 0 <= j < |y.pc| && y.pc[j].Posting?
        ensures j == op.i
      {
        OnePosting(y, op.i, j);
      }
    } else if op.Prepare? {
      PrepareHasHead(y, op);
      assert y'.pc[op.i].Posting?;
    } else {
      OthersKeepPosting(y, op);
    }
  }

  lemma OthersKeepPosting(y: Sys, op: Op)
    requires Allowed(y, op) && !op.Publish? && !op.Prepare?
    ensures |Do(y, op).pc| == |y.pc|
    ensures forall j :: 0 <= j < |y.pc| ==> (Do(y, op).pc[j].Posting? <==> y.pc[j].Posting?)
  {
    hide V.Allowed, V.Do, Apply, Enabled, Three;
  }

  /** A step of the queue other than giving it back leaves a claim as it is. */
  lemma ClaimStays(q: V.Queue, o: V.Op, pc: Pc)
    requires V.Invariant(q) && V.Allowed(q, o) && ClaimOk(q, pc) && (pc.Posting? || pc.Waiting?)
    requires o != V.Finish(pc.h) && !o.Publish? && (pc.Posting? ==> !o.Prepare?)
    ensures ClaimOk(V.Do(q, o), pc)
  {
    V.ChainStays(q, o, pc.h);
    if pc.Posting? {
      LockedStays(q, o);
    }
    hide V.Invariant, V.Allowed, V.Do;
  }

  lemma LockedStays(q: V.Queue, o: V.Op)
    requires V.Allowed(q, o) && !o.Publish? && !o.Prepare?
    ensures V.Do(q, o).m.locked == q.m.locked
  {
  }

  lemma Posts(q: V.Queue, pc: Pc)
    requires V.Invariant(q) && V.Allowed(q, V.Publish) && ClaimOk(q, pc) && (pc.Posting? || pc.Waiting?)
    ensures ClaimOk(V.Do(q, V.Publish), Waiting(pc.buf, pc.h, pc.req))
  {
    V.ChainStays(q, V.Publish, pc.h);
    PublishMoves(q);
    hide V.Invariant, V.Allowed, V.Do;
  }

  lemma PublishMoves(q: V.Queue)
    requires V.Invariant(q) && V.Allowed(q, V.Publish)
    ensures q.m.locked.Some? && q.m.locked.value in V.Do(q, V.Publish).p.chains
    ensures !V.Do(q, V.Publish).p.chains[q.m.locked.value].stage.Prepared?
  {
  }

  lemma Claims(q: V.Queue, buf: nat, req: V.Header, idx: seq<nat>, pc: Pc)
    requires V.Invariant(q) && V.Allowed(q, V.Prepare(buf, req, idx)) && ClaimOk(q, pc)
    ensures idx != [] && ClaimOk(V.Do(q, V.Prepare(buf, req, idx)), Posting(buf, idx[0], req))
    ensures Apart(pc, Posting(buf, idx[0], req))
  {
    V.NewHead(q, buf, req, idx);
    hide V.Invariant;
  }

  lemma DeviceClaim(y: Sys, o: V.Op, j: nat)
    requires Invariant(y) && Allowed(y, Device(o)) && j < |y.pc|
    ensures ClaimOk(Do(y, Device(o)).q, Do(y, Device(o)).pc[j])
  {
    hide KernelOk, NoLost, V.Invariant, V.Allowed, V.Do, PhaseFits, PostingOk, Apart;
    assert ClaimOk(y.q, y.pc[j]);
    if y.pc[j].Posting? || y.pc[j].Waiting? {
      ClaimStays(y.q, o, y.pc[j]);
    }
  }

  lemma OtherClaim(y: Sys, op: Op, j: nat)
    requires Invariant(y) && Allowed(y, op) && !op.Device? && j < |y.pc| && j != KernelStep(y, op).i
    ensures j < |Do(y, op).pc| && ClaimOk(Do(y, op).q, Do(y, op).pc[j])
  {
    hide KernelOk, NoLost, V.Invariant, V.Allowed, V.Do, PhaseFits, Apply, Enabled, NextPc, Three;
    var pc, a := y.pc[j], KernelStep(y, op).i;
    assert ClaimOk(y.q, pc);
    if QueueStep(y, op).Some? && (pc.Posting? || pc.Waiting?) {
      var o := QueueStep(y, op).value;
      assert a < j ==> Apart(y.pc[a], pc);
      assert j < a ==> Apart(pc, y.pc[a]);
      LockedAfter(y.q, o);
      if o.Publish? {
        if pc.Posting? {
          OnePosting(y, a, j);
        }
        Posts(y.q, pc);
      } else {
        ClaimStays(y.q, o, pc);
      }
    }
  }

  lemma OwnClaim(y: Sys, op: Op)
    requires Invariant(y) && Allowed(y, op) && !op.Device?
    ensures var i := KernelStep(y, op).i; i < |Do(y, op).pc| && ClaimOk(Do(y, op).q, Do(y, op).pc[i])
  {
    hide KernelOk, NoLost, V.Invariant, V.Allowed, V.Do, PhaseFits, Apply, Enabled, Three, PostingOk, Apart;
    var pc := y.pc[KernelStep(y, op).i];
    assert ClaimOk(y.q, pc);
    match op
    case Prepare(i, idx) => Claims(y.q, pc.buf, pc.req, idx, pc);
    case Publish(i) => Posts(y.q, pc);
    case _ =>
  }

  lemma StepClaim(y: Sys, op: Op, j: nat)
    requires Invariant(y) && Allowed(y, op) && j < |y.pc|
    ensures j < |Do(y, op).pc| && ClaimOk(Do(y, op).q, Do(y, op).pc[j])
  {
    StepSizes(y, op);
    hide Invariant, Allowed, Do, ClaimOk;
    if op.Device? {
      DeviceClaim(y, op.op, j);
    } else if j == KernelStep(y, op).i {
      OwnClaim(y, op);
    } else {
      OtherClaim(y, op, j);
    }
  }

  /** The actor's claim afterwards is the one it had, or a new one. */
  lemma OwnHead(y: Sys, op: Op, pc: Pc)
    requires Invariant(y) && Allowed(y, op) && !op.Device? && ClaimOk(y.q, pc) && Apart(y.pc[KernelStep(y, op).i], pc)
    ensures var i := KernelStep(y, op).i; i < |Do(y, op).pc| && Apart(Do(y, op).pc[i], pc)
  {
    hide KernelOk, NoLost, V.Invariant, V.Allowed, V.Do, PhaseFits, Apply, Enabled, Three, PostingOk, ClaimOk;
    if op.Prepare? {
      var own := y.pc[op.i];
      Claims(y.q, own.buf, own.req, op.idx, pc);
    }
  }

  lemma StepApart(y: Sys, op: Op, i: nat, j: nat)
    requires Invariant(y) && Allowed(y, op) && i < j < |y.pc|
    ensures |Do(y, op).pc| == |y.pc| && Apart(Do(y, op).pc[i], Do(y, op).pc[j])
  {
    StepSizes(y, op);
    assert Apart(y.pc[i], y.pc[j]) && ClaimOk(y.q, y.pc[i]) && ClaimOk(y.q, y.pc[j]);
    if !op.Device? {
      var a := KernelStep(y, op).i;
      OthersSame(y, op);
      if a == i {
        OwnHead(y, op, y.pc[j]);
      } else if a == j {
        OwnHead(y, op, y.pc[i]);
      }
    }
    hide Invariant, Allowed, ClaimOk, NextPc, Apply;
  }

  lemma OthersSame(y: Sys, op: Op)
    requires Allowed(y, op) && !op.Device?
    ensures |Do(y, op).pc| == |y.pc|
    ensures forall j :: 0 <= j < |y.pc| && j != KernelStep(y, op).i ==> Do(y, op).pc[j] == y.pc[j]
  {
    hide V.Allowed, V.Do, Apply, Enabled, Guard, NextPc, QueueStep;
  }

  lemma StepKeeps(y: Sys, op: Op)
    requires Invariant(y) && Allowed(y, op)
    ensures Invariant(Do(y, op))
  {
    hide KernelOk, NoLost, V.Invariant, PhaseFits, PostingOk, Allowed, Do, ClaimOk, Apart;
    forall i | 0 <= i < |Do(y, op).pc|
      ensures ClaimOk(Do(y, op).q, Do(y, op).pc[i])
    {
      StepSizes(y, op);
      StepClaim(y, op, i);
    }
    forall i, j | 0 <= i < j < |Do(y, op).pc|
      ensures Apart(Do(y, op).pc[i], Do(y, op).pc[j])
    {
      StepSizes(y, op);
      StepApart(y, op, i, j);
    }
    StepQueue(y, op);
    StepNoLost(y, op);
    StepPosting(y, op);
    StepSizes(y, op);
    forall j | 0 <= j < |Do(y, op).pc|
      ensures PhaseFits(Do(y, op).pc[j], Do(y, op).k.procs[j].phase)
    {
      StepPhases(y, op, j);
    }
  }

  lemma StepSizes(y: Sys, op: Op)
    requires Allowed(y, op) && |y.pc| == |y.k.procs|
    ensures |Do(y, op).pc| == |y.pc| && |Do(y, op).k.procs| == |y.pc|
  {
  }

  // ----- runs

  ghost predicate Legal(y: Sys, ops: seq<Op>)
    decreases |ops|, 0
  {
    ops == [] || (Legal(y, ops[..|ops| - 1]) && Allowed(After(y, ops[..|ops| - 1]), ops[|ops| - 1]))
  }

  ghost function After(y: Sys, ops: seq<Op>): Sys
    requires Legal(y, ops)
    decreases |ops|, 1
  {
    if ops == [] then y else Do(After(y, ops[..|ops| - 1]), ops[|ops| - 1])
  }

  /** After virtio_disk_init, before any process uses the disk. */
  ghost predicate Fresh(y: Sys) {
    && V.Boot(y.q) && y.k.lk == None && |y.pc| == |y.k.procs|
    && forall i :: 0 <= i < |y.pc| ==> y.pc[i].Idle? && y.k.procs[i].phase.Out? && y.k.procs[i].chan == None
  }

  lemma {:induction false} RunKeeps(y: Sys, ops: seq<Op>)
    requires Fresh(y) && Legal(y, ops)
    ensures Invariant(After(y, ops))
    decreases |ops|
  {
    hide KernelOk, NoLost, V.Invariant;
    if ops == [] {
      BootOk(y.k, Good(y.q.m));
      V.RunKeeps(y.q, []);
    } else {
      RunKeeps(y, ops[..|ops| - 1]);
      hide Invariant, Allowed, Do;
      StepKeeps(After(y, ops[..|ops| - 1]), ops[|ops| - 1]);
    }
  }

  /**
   With vdisk_lock free, a process sleeps on disk.free[0] only if there are fewer than three free descriptors, and on a
   buffer only if its request is still in progress.
   */
  lemma SleepersHaveReason(y: Sys, ops: seq<Op>, i: nat)
    requires Fresh(y) && Legal(y, ops) && After(y, ops).k.lk == None && i < |After(y, ops).k.procs|
    ensures var z := After(y, ops);
            && (WaitsOn(z.k.procs[i]) == Some(FreeDesc) ==> !Three(z.q.m))
            && forall b :: WaitsOn(z.k.procs[i]) == Some(Buffer(b)) ==> b in z.q.m.disk
  {
    RunKeeps(y, ops);
    hide Legal, After, V.Invariant, PostingOk, ClaimsOk, Three;
    var z := After(y, ops);
    FreeMeansNoLost(z.k, Good(z.q.m));
  }

  /** So a process whose request has completed, or who can have its descriptors, can go on. */
  lemma CanGoOn(y: Sys, ops: seq<Op>, i: nat)
    requires Fresh(y) && Legal(y, ops) && After(y, ops).k.lk == None && i < |After(y, ops).pc|
    requires var z := After(y, ops);
             || (z.pc[i].Wanting? && Three(z.q.m))
             || (z.pc[i].Waiting? && z.pc[i].buf !in z.q.m.disk)
    ensures var z := After(y, ops);
            Enabled(z.k, Schedule(i)) || Enabled(z.k, Tidy(i)) || Enabled(z.k, Reacquire(i))
  {
    hide Legal, After, Invariant, Three, Enabled;
    RunKeeps(y, ops);
    var z := After(y, ops);
    LockFree(z, i);
    SleepersHaveReason(y, ops, i);
    AwakeCanGoOn(z.k, i, z.pc[i]);
  }

  lemma LockFree(z: Sys, i: nat)
    requires Invariant(z) && z.k.lk == None && i < |z.pc|
    ensures i < |z.k.procs| && PhaseFits(z.pc[i], z.k.procs[i].phase) && FieldsOk(z.k.procs[i])
    ensures !HoldsLk(z.k.procs[i].phase)
  {
    hide NoLost, V.Invariant, PostingOk, WokenOk;
  }

  lemma AwakeCanGoOn(k: Kernel<Chan>, i: nat, pc: Pc)
    requires k.lk == None && i < |k.procs| && PhaseFits(pc, k.procs[i].phase) && FieldsOk(k.procs[i])
    requires !HoldsLk(k.procs[i].phase) && (pc.Wanting? || pc.Waiting?)
    requires WaitsOn(k.procs[i]) != Some(if pc.Wanting? then FreeDesc else Buffer(pc.buf))
    ensures Enabled(k, Schedule(i)) || Enabled(k, Tidy(i)) || Enabled(k, Reacquire(i))
  {
  }

  // ----- what virtio_disk_rw returns for

  predicate IsBegin(op: Op, i: nat) {
    (op.Begin? || op.IntrBegin?) && op.i == i
  }

  /** The step makes the chain with head h. */
  predicate Makes(op: Op, h: nat) {
    op.Prepare? && op.idx != [] && op.idx[0] == h
  }

  predicate HasRequest(pc: Pc) {
    pc.Wanting? || pc.Posting? || pc.Waiting?
  }

  /** Process i was last called at step b, for this buffer and request, and made the chain for it at step p. */
  ghost predicate CalledAt(ops: seq<Op>, i: nat, pc: Pc, b: nat, p: nat)
    requires HasRequest(pc)
  {
    && b < |ops| && ops[b] == Begin(i, pc.buf, pc.req) && (forall l :: b < l < |ops| ==> !IsBegin(ops[l], i))
    && (!pc.Wanting? ==> b < p < |ops| && ops[p].Prepare? && ops[p].i == i && Makes(ops[p], pc.h))
  }

  lemma CalledMore(ops: seq<Op>, i: nat, pc: Pc, b: nat, p: nat)
    requires ops != [] && HasRequest(pc) && CalledAt(ops[..|ops| - 1], i, pc, b, p) && !IsBegin(ops[|ops| - 1], i)
    ensures CalledAt(ops, i, pc, b, p)
  {
    hide IsBegin, Makes;
    var pre := ops[..|ops| - 1];
    forall l | b < l < |ops|
      ensures !IsBegin(ops[l], i)
    {
      if l < |pre| {
        assert pre[l] == ops[l];
      }
    }
  }

  /** What one step does to the call of process i. */
  lemma CallStep(z: Sys, op: Op, i: nat)
    requires Allowed(z, op) && i < |z.pc| && i < |Do(z, op).pc| && HasRequest(Do(z, op).pc[i])
    ensures var pc, pc' := z.pc[i], Do(z, op).pc[i];
            if IsBegin(op, i) then op == Begin(i, pc'.buf, pc'.req) && pc'.Wanting?
            else
              && HasRequest(pc) && pc'.buf == pc.buf && pc'.req == pc.req
              && (pc'.Wanting? ==> pc.Wanting?)
              && (!pc'.Wanting? ==> (!pc.Wanting? && pc'.h == pc.h) || (op.Prepare? && op.i == i && Makes(op, pc'.h)))
  {
    hide V.Allowed, V.Do, Apply, Enabled, Three, Completed;
  }

  lemma {:induction false} CallOf(y: Sys, ops: seq<Op>, i: nat) returns (b: nat, p: nat)
    requires Fresh(y) && Legal(y, ops) && i < |After(y, ops).pc| && HasRequest(After(y, ops).pc[i])
    ensures CalledAt(ops, i, After(y, ops).pc[i], b, p)
    decreases |ops|
  {
    hide Allowed, Do, Makes, IsBegin;
    if ops == [] {
      assert false;
    } else {
      var last := |ops| - 1;
      var z, op := After(y, ops[..last]), ops[last];
      SameSize(z, op);
      CallStep(z, op, i);
      if IsBegin(op, i) {
        b, p := last, last;
      } else {
        b, p := CallOf(y, ops[..last], i);
        var pc, pc' := z.pc[i], After(y, ops).pc[i];
        CalledMore(ops, i, pc, b, p);
        if !pc'.Wanting? && op.Prepare? && op.i == i && Makes(op, pc'.h) {
          p := last;
        }
      }
    }
  }

  lemma SameSize(z: Sys, op: Op)
    requires Allowed(z, op)
    ensures |Do(z, op).pc| == |z.pc|
  {
    hide V.Allowed, V.Do, Apply, Enabled, Guard, NextPc;
  }

  /** The device completed chain h with this status at step l, and the chain has not been made anew since. */
  ghost predicate CompletedAt(ops: seq<Op>, h: nat, status: nat, l: nat) {
    l < |ops| && ops[l] == Device(V.Complete(h, status)) && forall m :: l < m < |ops| ==> !Makes(ops[m], h)
  }

  lemma CompletedMore(ops: seq<Op>, h: nat, status: nat, l: nat)
    requires ops != [] && CompletedAt(ops[..|ops| - 1], h, status, l) && !Makes(ops[|ops| - 1], h)
    ensures CompletedAt(ops, h, status, l)
  {
    hide Makes;
    var pre := ops[..|ops| - 1];
    forall m | l < m < |ops|
      ensures !Makes(ops[m], h)
    {
      if m < |pre| {
        assert pre[m] == ops[m];
      }
    }
  }

  /** A chain that is done, or seen to be, has been completed by the device; with status 0 if it has been seen. */
  predicate IsServed(c: V.Chain) {
    c.stage.Done? || c.stage.Seen?
  }

  function StatusOf(c: V.Chain): nat {
    if c.stage.Done? then c.stage.status else 0
  }

  lemma ServedStep(z: Sys, op: Op, h: nat)
    requires Invariant(z) && Allowed(z, op) && h in Do(z, op).q.p.chains && IsServed(Do(z, op).q.p.chains[h])
    ensures var c' := Do(z, op).q.p.chains[h];
            || op == Device(V.Complete(h, StatusOf(c')))
            || (&& h in z.q.p.chains && IsServed(z.q.p.chains[h]) && StatusOf(z.q.p.chains[h]) == StatusOf(c')
                && !Makes(op, h))
  {
    hide KernelOk, NoLost, V.Invariant, V.Allowed, V.Do, PhaseFits, Apply, Enabled, Three, PostingOk, ClaimsOk, NextPc;
    if QueueStep(z, op).Some? {
      var o := QueueStep(z, op).value;
      if h in z.q.p.chains {
        if o == V.Finish(h) {
          FinishDrops(z.q, h);
        } else {
          V.ChainStays(z.q, o, h);
          if o.Prepare? {
            V.NewHead(z.q, o.buf, o.req, o.idx);
          }
        }
      } else {
        V.NewChain(z.q, o, h);
      }
    }
  }

  lemma FinishDrops(q: V.Queue, h: nat)
    requires V.Allowed(q, V.Finish(h))
    ensures h !in V.Do(q, V.Finish(h)).p.chains
  {
  }

  lemma {:induction false} CompletedBefore(y: Sys, ops: seq<Op>, h: nat) returns (l: nat)
    requires Fresh(y) && Legal(y, ops) && h in After(y, ops).q.p.chains && IsServed(After(y, ops).q.p.chains[h])
    ensures CompletedAt(ops, h, StatusOf(After(y, ops).q.p.chains[h]), l)
    decreases |ops|
  {
    hide Allowed, Do, Makes, Invariant, IsServed, StatusOf;
    if ops == [] {
      assert false;
    } else {
      var last := |ops| - 1;
      var z, op := After(y, ops[..last]), ops[last];
      RunKeeps(y, ops[..last]);
      ServedStep(z, op, h);
      if op == Device(V.Complete(h, StatusOf(After(y, ops).q.p.chains[h]))) {
        l := last;
      } else {
        l := CompletedBefore(y, ops[..last], h);
        CompletedMore(ops, h, StatusOf(z.q.p.chains[h]), l);
      }
    }
  }

  /**
   On every run, when virtio_disk_rw goes on to give its descriptors back, the chain it gives back is the request of its
   buffer that it was called for, and the device has completed that request, without failure, since the call.
   */
  lemma RequestServed(y: Sys, ops: seq<Op>, i: nat) returns (b: nat, l: nat)
    requires Fresh(y) && Legal(y, ops) && Allowed(After(y, ops), Finish(i))
    ensures i < |After(y, ops).pc| && After(y, ops).pc[i].Waiting?
    ensures var z := After(y, ops);
            var pc := z.pc[i];
            && b < l < |ops| && ops[b] == Begin(i, pc.buf, pc.req)
            && (forall m :: b < m < |ops| ==> !IsBegin(ops[m], i))
            && QueueStep(z, Finish(i)) == Some(V.Finish(pc.h)) && pc.h in z.q.p.chains
            && z.q.p.chains[pc.h].buf == pc.buf && z.q.p.chains[pc.h].req == pc.req
            && ops[l] == Device(V.Complete(pc.h, 0))
  {
    RunKeeps(y, ops);
    var z := After(y, ops);
    FinishIsSeen(z, i);
    hide Allowed, Do, Invariant, Legal, After, Fresh;
    var p;
    b, p := CallOf(y, ops, i);
    l := CompletedBefore(y, ops, z.pc[i].h);
  }

  lemma FinishIsSeen(z: Sys, i: nat)
    requires Invariant(z) && Allowed(z, Finish(i))
    ensures i < |z.pc| && z.pc[i].Waiting? && z.pc[i].h in z.q.p.chains
    ensures var c := z.q.p.chains[z.pc[i].h]; c.buf == z.pc[i].buf && c.req == z.pc[i].req && c.stage.Seen?
    ensures QueueStep(z, Finish(i)) == Some(V.Finish(z.pc[i].h))
  {
    hide KernelOk, NoLost, V.Invariant, V.Do, PhaseFits, Apply, Enabled, Three, PostingOk, NextPc, Apart;
    assert ClaimOk(z.q, z.pc[i]);
    V.Pick(z.q, z.pc[i].h);
  }

  // ----- nobody is stuck

  /**
   What keeps process i from going on: see Blocked; or vdisk_lock; or another request for its buffer, which the buffer's
   own lock rules out; or, in the interrupt handler, that the device reported a failure.
   */
  ghost predicate Held(y: Sys, i: nat)
    requires i < |y.pc| == |y.k.procs|
  {
    || Blocked(y.k, i)
    || (y.k.procs[i].phase.Out? && (y.k.procs[i].state != Running || y.k.lk.Some?))
    || (y.pc[i].Wanting? && y.pc[i].buf in y.q.p.owner)
    || (y.pc[i].Handling? && y.q.m.driverIdx != y.q.m.usedIdx && !V.Allowed(y.q, V.Intr))
  }

  /** On every run a process in virtio_disk_rw or the interrupt handler can go on unless it is held up. */
  lemma NobodyStuck(y: Sys, ops: seq<Op>, i: nat) returns (op: Op)
    requires Fresh(y) && Legal(y, ops) && i < |After(y, ops).pc| == |After(y, ops).k.procs|
    requires !After(y, ops).pc[i].Idle? && !Held(After(y, ops), i)
    ensures IsNext(After(y, ops), i, op)
  {
    RunKeeps(y, ops);
    hide Legal, After, Fresh;
    op := GoesOnFrom(After(y, ops), i);
  }

  /** op is a step of process i, and one it sleeps in only with reason. */
  ghost predicate IsNext(z: Sys, i: nat, op: Op) {
    && Allowed(z, op) && !op.Device? && KernelStep(z, op).i == i && !op.Retry?
    && (op.SleepFree? ==> !Three(z.q.m))
    && (op.SleepBuf? ==> i < |z.pc| && z.pc[i].Waiting? && z.pc[i].buf in z.q.m.disk)
  }

  lemma GoesOnFrom(z: Sys, i: nat) returns (op: Op)
    requires Invariant(z) && i < |z.pc| && !Held(z, i) && !z.pc[i].Idle?
    ensures IsNext(z, i, op)
  {
    assert PhaseFits(z.pc[i], z.k.procs[i].phase) && ClaimOk(z.q, z.pc[i]);
    hide KernelOk, NoLost, V.Invariant, PostingOk, ClaimsOk, IsNext, Allowed, ClaimOk;
    if InProtocol(z.k.procs[i].phase) {
      GoesOn(z.k, i);
      op := Inner(NextStep(z.k, i));
      InnerNext(z, i);
    } else if z.pc[i].Posting? {
      op := Publish(i);
      PostingNext(z, i);
    } else {
      NotPosting(z, i);
      if z.pc[i].Wanting? {
        op := WantingNext(z, i);
      } else if z.pc[i].Waiting? {
        op := WaitingNext(z, i);
      } else {
        op := RestNext(z, i);
      }
    }
  }

  lemma InnerNext(z: Sys, i: nat)
    requires i < |z.pc| == |z.k.procs| && InProtocol(z.k.procs[i].phase) && PhaseFits(z.pc[i], z.k.procs[i].phase)
    requires !z.pc[i].Idle? && Enabled(z.k, NextStep(z.k, i)) && NextStep(z.k, i).i == i
    ensures IsNext(z, i, Inner(NextStep(z.k, i)))
  {
    hide Enabled, V.Allowed;
  }

  lemma PostingNext(z: Sys, i: nat)
    requires V.Invariant(z.q) && i < |z.pc| == |z.k.procs| && z.pc[i].Posting? && ClaimOk(z.q, z.pc[i])
    requires PhaseFits(z.pc[i], z.k.procs[i].phase)
    ensures IsNext(z, i, Publish(i))
  {
    PostedNow(z.q, z.pc[i].h);
    hide V.Invariant, V.Allowed;
  }

  lemma WantingNext(z: Sys, i: nat) returns (op: Op)
    requires V.Invariant(z.q) && i < |z.pc| == |z.k.procs| && z.pc[i].Wanting? && z.q.m.locked == None && !Held(z, i)
    requires !InProtocol(z.k.procs[i].phase) && PhaseFits(z.pc[i], z.k.procs[i].phase)
    ensures IsNext(z, i, op)
  {
    QueueSized(z.q);
    hide V.Invariant;
    if Three(z.q.m) {
      var a, b, c :| 0 <= a < b < c < |z.q.m.free| && z.q.m.free[a] && z.q.m.free[b] && z.q.m.free[c];
      op := Prepare(i, [a, b, c]);
      AnyThree(z.q, z.pc[i].buf, z.pc[i].req, a, b, c);
      hide V.Allowed, Three;
    } else {
      op := SleepFree(i);
      hide V.Allowed, Three;
    }
  }

  lemma AnyThree(q: V.Queue, buf: nat, req: V.Header, a: nat, b: nat, c: nat)
    requires V.Sized(q.m) && q.m.locked == None && buf !in q.p.owner
    requires a < b < c < |q.m.free| && q.m.free[a] && q.m.free[b] && q.m.free[c]
    ensures V.Allowed(q, V.Prepare(buf, req, [a, b, c]))
  {
  }

  lemma WaitingNext(z: Sys, i: nat) returns (op: Op)
    requires V.Invariant(z.q) && i < |z.pc| == |z.k.procs| && z.pc[i].Waiting? && z.q.m.locked == None
    requires ClaimOk(z.q, z.pc[i])
    requires !InProtocol(z.k.procs[i].phase) && PhaseFits(z.pc[i], z.k.procs[i].phase)
    ensures IsNext(z, i, op)
  {
    if z.pc[i].buf in z.q.m.disk {
      op := SleepBuf(i);
    } else {
      op := Finish(i);
      V.Pick(z.q, z.pc[i].h);
      V.StageMoves(z.q, z.pc[i].h, 0);
    }
    hide V.Invariant, V.Allowed, Three;
  }

  lemma RestNext(z: Sys, i: nat) returns (op: Op)
    requires i < |z.pc| == |z.k.procs| && z.q.m.locked == None && !Held(z, i)
    requires z.pc[i].Freed? || z.pc[i].Handling? || z.pc[i].Cleared?
    requires !InProtocol(z.k.procs[i].phase) && PhaseFits(z.pc[i], z.k.procs[i].phase)
    ensures IsNext(z, i, op)
  {
    hide V.Allowed, Three;
    match z.pc[i]
    case Freed(left) => op := if left == 0 then End(i) else WakeFree(i);
    case Handling => op := if z.q.m.driverIdx != z.q.m.usedIdx then IntrOne(i) else IntrEnd(i);
    case Cleared(b) => op := IntrWake(i);
  }

  lemma QueueSized(q: V.Queue)
    requires V.Invariant(q)
    ensures V.Sized(q.m)
  {
  }

  lemma PostedNow(q: V.Queue, h: nat)
    requires V.Invariant(q) && q.m.locked == Some(h)
    ensures V.Allowed(q, V.Publish)
  {
  }

  /** While one process holds vdisk_lock and is not posting, no chain is half posted. */
  lemma NotPosting(z: Sys, i: nat)
    requires Invariant(z) && i < |z.pc| && !z.pc[i].Posting? && !z.pc[i].Idle? && !InProtocol(z.k.procs[i].phase)
    ensures z.q.m.locked == None
  {
    hide NoLost, V.Invariant, ClaimsOk, KernelOk;
    assert PhaseFits(z.pc[i], z.k.procs[i].phase);
    if z.q.m.locked.Some? {
      var j :| 0 <= j < |z.pc| && z.pc[j].Posting?;
      OneHolder(z, i, j);
      assert false;
    }
  }

  lemma OneHolder(z: Sys, i: nat, j: nat)
    requires Invariant(z) && i < |z.pc| && j < |z.pc| && HoldsLk(z.k.procs[i].phase) && z.pc[j].Posting?
    ensures i == j
  {
    hide NoLost, V.Invariant, ClaimsOk, WokenOk, FieldsOk, PostingOk;
    assert PhaseFits(z.pc[j], z.k.procs[j].phase);
  }

  /** The driver does not hold up the device: it can fetch the oldest posted request and complete any it has fetched. */
  lemma DeviceCanAct(y: Sys, ops: seq<Op>, h: nat, status: nat)
    requires Fresh(y) && Legal(y, ops) && h in After(y, ops).q.p.chains
    ensures var z := After(y, ops);
            match z.q.p.chains[h].stage
            case Posted(k) => k == z.q.p.fetched ==> Allowed(z, Device(V.Fetch))
            case Working => Allowed(z, Device(V.Complete(h, status)))
            case _ => true
  {
    hide Legal, After, Fresh, Allowed;
    RunKeeps(y, ops);
    DeviceMoves(After(y, ops), h, status);
  }

  lemma DeviceMoves(z: Sys, h: nat, status: nat)
    requires V.Invariant(z.q) && h in z.q.p.chains
    ensures match z.q.p.chains[h].stage
            case Posted(k) => k == z.q.p.fetched ==> Allowed(z, Device(V.Fetch))
            case Working => Allowed(z, Device(V.Complete(h, status)))
            case _ => true
  {
    hide V.Allowed, V.Invariant;
    V.StageMoves(z.q, h, status);
  }

  /**
   A process that holds vdisk_lock has no choice what to do next, but for which three free descriptors it takes, and,
   when there are too few, whether alloc3_desc has taken one that it gives back.
   */
  lemma NextIsForced(y: Sys, ops: seq<Op>, op: Op)
    requires Fresh(y) && Legal(y, ops) && Allowed(After(y, ops), op) && !op.Inner? && !op.Device?
    requires op.i < |After(y, ops).pc|
    ensures var z := After(y, ops);
            match z.pc[op.i]
            case Idle => op.Begin? || op.IntrBegin?
            case Wanting(_, _, gave) => if Three(z.q.m) then op.Prepare? else op.SleepFree? || (op.Retry? && gave < 2)
            case Posting(_, _, _) => op.Publish?
            case Waiting(buf, _, _) => if buf in z.q.m.disk then op.SleepBuf? else op.Finish?
            case Freed(left) => if left == 0 then op.End? else op.WakeFree?
            case Handling => if z.q.m.driverIdx != z.q.m.usedIdx then op.IntrOne? else op.IntrEnd?
            case Cleared(_) => op.IntrWake?
  {
    var z := After(y, ops);
    hide Legal, After, Fresh;
    if op.Prepare? {
      PreparesFromThree(z.q, z.pc[op.i].buf, z.pc[op.i].req, op.idx);
    }
    hide Three, Enabled;
  }

  lemma PreparesFromThree(q: V.Queue, buf: nat, req: V.Header, idx: seq<nat>)
    requires V.Allowed(q, V.Prepare(buf, req, idx))
    ensures Three(q.m)
  {
    var a, b, c := idx[0], idx[1], idx[2];
    assert q.m.free[a] && q.m.free[b] && q.m.free[c];
    var lo := if a < b && a < c then a else if b < c then b else c;
    var hi := if a > b && a > c then a else if b > c then b else c;
    var mid := if lo != a && hi != a then a else if lo != b && hi != b then b else c;
    assert 0 <= lo < mid < hi < |q.m.free|;
  }

  // ----- nobody keeps vdisk_lock

  /** Requests that the interrupt handler has not seen to be complete. */
  ghost function Unseen(q: V.Queue): set<nat> {
    set h | h in q.p.chains && !q.p.chains[h].stage.Seen?
  }

  /** How far a process that holds the lock is from letting go of it, in calls and rounds of its loop. */
  ghost function CallsLeft(q: V.Queue, pc: Pc, ph: Phase<Chan>): int {
    match pc
    case Idle => 0
    case Wanting(_, _, gave) => if ph.In? || ph.Waking? then 10 - gave else 0
    case Posting(_, _, _) => 7
    case Waiting(_, _, _) => if ph.In? then 6 else 0
    case Freed(left) => left + 1
    case Handling => 2 * |Unseen(q)| + 1
    case Cleared(_) => 2 * |Unseen(q)| + 2
  }

  ghost function Left(y: Sys, i: nat): (int, int)
    requires i < |y.pc| == |y.k.procs|
  {
    (CallsLeft(y.q, y.pc[i], y.k.procs[i].phase), PhaseLeft(y.k.procs[i].phase, |y.pc|))
  }

  /**
   On every run, each step that a process makes while it holds vdisk_lock brings it closer to letting go of it, be it to
   return or to sleep: in particular the interrupt handler's loop ends, though the device goes on completing requests.
   */
  lemma LetsGo(y: Sys, ops: seq<Op>, op: Op)
    requires Fresh(y) && Legal(y, ops) && Allowed(After(y, ops), op) && !op.Device? && (op.Inner? ==> IsProtocol(op.s))
    requires var z := After(y, ops);
             var i := KernelStep(z, op).i;
             i < |z.k.procs| == |Do(z, op).k.procs|
             && HoldsLk(z.k.procs[i].phase) && HoldsLk(Do(z, op).k.procs[i].phase)
    ensures var z := After(y, ops);
            var i := KernelStep(z, op).i;
            && i < |z.pc| == |z.k.procs| == |Do(z, op).pc| == |Do(z, op).k.procs|
            && Less(Left(Do(z, op), i), Left(z, i))
  {
    RunKeeps(y, ops);
    hide Legal, After, Fresh;
    StepSizes(After(y, ops), op);
    StepLetsGo(After(y, ops), op);
  }

  lemma StepLetsGo(z: Sys, op: Op)
    requires Invariant(z) && Allowed(z, op) && !op.Device? && (op.Inner? ==> IsProtocol(op.s))
    requires |Do(z, op).pc| == |Do(z, op).k.procs| == |z.pc|
    requires var i := KernelStep(z, op).i; HoldsLk(z.k.procs[i].phase) && HoldsLk(Do(z, op).k.procs[i].phase)
    ensures var i := KernelStep(z, op).i; Less(Left(Do(z, op), i), Left(z, i))
  {
    hide KernelOk, NoLost, V.Invariant, V.Allowed, V.Do, PostingOk, ClaimsOk, Three, Unseen, Completed;
    var i := KernelStep(z, op).i;
    assert PhaseFits(z.pc[i], z.k.procs[i].phase);
    StepNoLost(z, op);
    PhaseLeftBound(z.k, i);
    PhaseLeftBound(Do(z, op).k, i);
    if op.IntrOne? {
      OneSeen(z.q);
    }
    if op.Prepare? {
      PrepareHasHead(z, op);
    }
    hide Invariant;
    if op.Inner? {
      ProtocolLetsGo(z.k, op.s);
      InnerCalls(z.q, z.k, op.s, z.pc[i]);
    } else {
      OuterCalls(z, op);
    }
    hide PhaseLeft, CallsLeft, Apply, Guard, Enabled, PhaseFits, NextPc;
  }

  lemma InnerCalls(q: V.Queue, k: Kernel<Chan>, s: Step<Chan>, pc: Pc)
    requires Enabled(k, s) && IsProtocol(s) && PhaseFits(pc, k.procs[s.i].phase)
    requires HoldsLk(k.procs[s.i].phase) && HoldsLk(Apply(k, s).procs[s.i].phase)
    ensures 0 <= CallsLeft(q, pc, Apply(k, s).procs[s.i].phase) == CallsLeft(q, pc, k.procs[s.i].phase)
  {
    hide Woken, Unseen;
  }

  lemma OuterCalls(z: Sys, op: Op)
    requires Allowed(z, op) && !op.Inner? && !op.Device? && op.i < |z.pc| == |z.k.procs|
    requires |Do(z, op).pc| == |Do(z, op).k.procs| == |z.pc| && PhaseFits(z.pc[op.i], z.k.procs[op.i].phase)
    requires HoldsLk(z.k.procs[op.i].phase) && HoldsLk(Do(z, op).k.procs[op.i].phase)
    requires (op.IntrOne? ==> |Unseen(Do(z, op).q)| < |Unseen(z.q)|) && (op.Prepare? ==> op.idx != [])
    ensures var z', i := Do(z, op), op.i;
            0 <= CallsLeft(z'.q, z'.pc[i], z'.k.procs[i].phase) < CallsLeft(z.q, z.pc[i], z.k.procs[i].phase)
  {
    hide Woken, V.Allowed, V.Do, Three, Unseen, Completed;
  }

  lemma OneSeen(q: V.Queue)
    requires V.Invariant(q) && V.Allowed(q, V.Intr)
    ensures |Unseen(V.Do(q, V.Intr))| < |Unseen(q)|
  {
    hide V.Invariant;
    V.SeenWasDone(q);
    IntrSees(q);
    var h := q.m.usedRing[q.m.driverIdx % Virtio.NUM];
    hide V.Do, V.Allowed;
    assert h in Unseen(q) && h !in Unseen(V.Do(q, V.Intr));
    assert Unseen(V.Do(q, V.Intr)) <= Unseen(q);
    assert Unseen(q) == Unseen(V.Do(q, V.Intr)) + (Unseen(q) - Unseen(V.Do(q, V.Intr)));
    assert h in Unseen(q) - Unseen(V.Do(q, V.Intr));
  }

  lemma IntrSees(q: V.Queue)
    requires V.Allowed(q, V.Intr)
    ensures var h := q.m.usedRing[q.m.driverIdx % Virtio.NUM];
            && h in q.p.chains && V.Do(q, V.Intr).p.chains.Keys == q.p.chains.Keys
            && V.Do(q, V.Intr).p.chains[h].stage.Seen?
            && forall g :: g in q.p.chains && g != h ==> V.Do(q, V.Intr).p.chains[g] == q.p.chains[g]
  {
  }

  /** What others do meanwhile, the device among them, does not take it further away. */
  lemma LeftKept(y: Sys, ops: seq<Op>, op: Op, i: nat)
    requires Fresh(y) && Legal(y, ops) && Allowed(After(y, ops), op)
    requires var z := After(y, ops);
             && i < |z.pc| == |z.k.procs| && HoldsLk(z.k.procs[i].phase)
             && (op.Device? || KernelStep(z, op).i != i)
    ensures var z, z' := After(y, ops), Do(After(y, ops), op);
            i < |z'.pc| == |z'.k.procs| && Left(z', i) == Left(z, i)
  {
    RunKeeps(y, ops);
    hide Legal, After, Fresh;
    StepSizes(After(y, ops), op);
    OthersKeepLeft(After(y, ops), op, i);
  }

  lemma OthersKeepLeft(z: Sys, op: Op, i: nat)
    requires Invariant(z) && Allowed(z, op) && i < |z.pc| && HoldsLk(z.k.procs[i].phase)
    requires (op.Device? || KernelStep(z, op).i != i) && |Do(z, op).pc| == |Do(z, op).k.procs| == |z.pc|
    ensures Left(Do(z, op), i) == Left(z, i)
  {
    hide KernelOk, NoLost, V.Invariant, PostingOk, ClaimsOk, PhaseFits, Left, Do, Allowed;
    if op.Device? {
      DeviceLeft(z, op.op, i);
    } else {
      OtherOutside(z, op, i);
      SameLeft(z, op, i);
    }
  }

  lemma DeviceLeft(z: Sys, o: V.Op, i: nat)
    requires V.Invariant(z.q) && Allowed(z, Device(o)) && i < |z.pc| == |z.k.procs|
    ensures Left(Do(z, Device(o)), i) == Left(z, i)
  {
    hide V.Invariant, V.Allowed, V.Do, Unseen, PhaseLeft;
    DeviceUnseen(z.q, o);
  }

  lemma SameLeft(z: Sys, op: Op, i: nat)
    requires Allowed(z, op) && !op.Device? && i < |z.pc| == |z.k.procs| && KernelStep(z, op).i != i
    requires QueueStep(z, op) == None && |Do(z, op).pc| == |Do(z, op).k.procs| == |z.pc|
    ensures Left(Do(z, op), i) == Left(z, i)
  {
    hide V.Allowed, V.Do, Unseen, PhaseLeft, Apply, Enabled, Guard, NextPc;
    StepMovesOne(z.k, KernelStep(z, op), i);
  }

  lemma DeviceUnseen(q: V.Queue, o: V.Op)
    requires V.Invariant(q) && V.Allowed(q, o) && (o.Fetch? || o.Complete?)
    ensures Unseen(V.Do(q, o)) == Unseen(q)
  {
    hide V.Invariant;
    var q' := V.Do(q, o);
    assert q'.p.chains.Keys == q.p.chains.Keys;
    hide V.Allowed, V.Do;
    forall h | h in q.p.chains
      ensures h in q'.p.chains && (q'.p.chains[h].stage.Seen? <==> q.p.chains[h].stage.Seen?)
    {
      DeviceStage(q, o, h);
    }
  }

  lemma DeviceStage(q: V.Queue, o: V.Op, h: nat)
    requires V.Invariant(q) && V.Allowed(q, o) && (o.Fetch? || o.Complete?) && h in q.p.chains
    ensures h in V.Do(q, o).p.chains
    ensures V.Do(q, o).p.chains[h].stage.Seen? <==> q.p.chains[h].stage.Seen?
  {
    V.ChainStays(q, o, h);
    if o.Fetch? {
      V.FetchedWasPosted(q);
    }
    hide V.Invariant;
  }

  /** A step of the driver in the queue needs the lock. */
  lemma OtherOutside(z: Sys, op: Op, i: nat)
    requires Invariant(z) && Allowed(z, op) && !op.Device? && i < |z.pc| && HoldsLk(z.k.procs[i].phase)
    requires KernelStep(z, op).i != i
    ensures QueueStep(z, op) == None
  {
    hide NoLost, V.Invariant, V.Allowed, ClaimsOk, PostingOk, WokenOk, FieldsOk, Three, Completed;
  }
}
