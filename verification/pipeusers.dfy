/**
 pipewrite, piperead and pipeclose (kernel/pipe.c), run by any number of
 processes on the sleep/wakeup protocol of module Sleep. lk is the pipe's lock;
 writers sleep on &nwrite and readers on &nread. An end is closed when its last
 file reference goes, so not while a process is still using it.
 */
module PipeUsers {
  import opened Common
  import opened Sleep
  import opened Pipe

  datatype Chan = NRead | NWrite

  datatype Pc =
    | Free
    | Writing(src: seq<byte>, n: nat)     // pipewrite's loop, n bytes stored
    | FullWake(src: seq<byte>, n: nat)    // in or after the wakeup on nread, before sleep
    | LastWake(src: seq<byte>, n: nat)    // in or after pipewrite's last wakeup; it returns n
    | Quitting(src: seq<byte>, n: nat)    // pipewrite's early return; it returns -1
    | Waiting(want: nat)                  // piperead's wait loop
    | Copying(want: nat, got: nat, failed: bool)     // piperead's copy loop
    | ReadWake(want: nat, got: nat, failed: bool)    // in or after the wakeup on nwrite; it returns got
    | CloseStart(writable: bool)
    | Closing(writable: bool)             // holds the lock
    | CloseWake(writable: bool)           // in or after pipeclose's wakeup

  /** An end of the pipe: referenced by files, being closed by a process, or closed. */
  datatype End = Open | ClosedBy(i: nat) | Shut

  /**
   The ring, all bytes stored and removed so far, those copied out to readers, and whether some copyout has failed.
   */
  datatype Bytes = Bytes(ring: Ring, written: seq<byte>, taken: seq<byte>, delivered: seq<byte>, failed: bool)

  /** readopen and writeopen as in struct pipe, the two ends, and how often the pipe has been freed. */
  datatype Ends = Ends(readopen: bool, writeopen: bool, rend: End, wend: End, frees: nat)

  /** dropped: a killed writer has left bytes without waking the readers, and nobody has woken them since. */
  datatype Sys = Sys(k: Kernel<Chan>, pc: seq<Pc>, b: Bytes, e: Ends, dropped: bool)

  datatype Op =
    | WBegin(i: nat, src: seq<byte>)
    | WForget(i: nat)                 // read end closed, or killed
    | WQuit(i: nat)
    | WFull(i: nat)
    | WSleep(i: nat)
    | WPut(i: nat)
    | WEnd(i: nat)                    // all stored, or copyin failed
    | WReturn(i: nat)
    | RBegin(i: nat, n: nat)
    | RSleep(i: nat)
    | RQuit(i: nat)                   // killed
    | RGo(i: nat)
    | RTake(i: nat, fails: bool)
    | REnd(i: nat)
    | RReturn(i: nat)
    | CBegin(i: nat, writable: bool)
    | CLock(i: nat)
    | CSet(i: nat)
    | CEnd(i: nat)
    | Inner(s: Step<Chan>)

  predicate IsInner(s: Step<Chan>) {
    s.LockSelf? || s.Fall? || s.Doze? || s.Switch? || s.Kill? || s.Schedule? || s.Tidy? || s.Reacquire?
    || s.WakeNext? || s.WakeDone? || s.Elsewhere?
  }

  function Actor(op: Op): nat {
    if op.Inner? then op.s.i else op.i
  }

  predicate IsWriter(pc: Pc) {
    pc.Writing? || pc.FullWake? || pc.LastWake? || pc.Quitting?
  }

  predicate IsReader(pc: Pc) {
    pc.Waiting? || pc.Copying? || pc.ReadWake?
  }

  function EndOf(e: Ends, writable: bool): End {
    if writable then e.wend else e.rend
  }

  function IsOpen(e: Ends, writable: bool): bool {
    if writable then e.writeopen else e.readopen
  }

  /** The channel pipeclose wakes. */
  function Woke(writable: bool): Chan {
    if writable then NRead else NWrite
  }

  ghost predicate Unused(y: Sys, writable: bool) {
    forall j :: 0 <= j < |y.pc| ==> if writable then !IsWriter(y.pc[j]) else !IsReader(y.pc[j])
  }

  /** The promise to call wakeup that a write to the pipe brings with it. */
  function Pre(y: Sys, op: Op): Option<Step<Chan>> {
    match op
    case WPut(i) => Some(Owe(i, {NRead}))
    case WFull(i) => Some(Owe(i, {NRead}))
    case WEnd(i) => Some(Owe(i, {NRead}))
    case RTake(i, fails) => Some(Owe(i, {NWrite}))
    case REnd(i) => Some(Owe(i, {NWrite}))
    case CSet(i) => if i < |y.pc| && y.pc[i].Closing? then Some(Owe(i, {Woke(y.pc[i].writable)})) else None
    case _ => None
  }

  function Post(y: Sys, op: Op): Option<Step<Chan>> {
    match op
    case WBegin(i, src) => Some(Acquire(i))
    case WForget(i) => Some(Drop(i))
    case WQuit(i) => Some(Release(i))
    case WFull(i) => Some(CallWakeup(i, NRead))
    case WSleep(i) => Some(CallSleep(i, NWrite))
    case WEnd(i) => Some(CallWakeup(i, NRead))
    case WReturn(i) => Some(Release(i))
    case RBegin(i, n) => Some(Acquire(i))
    case RSleep(i) => Some(CallSleep(i, NRead))
    case RQuit(i) => Some(Release(i))
    case REnd(i) => Some(CallWakeup(i, NWrite))
    case RReturn(i) => Some(Release(i))
    case CLock(i) => Some(Acquire(i))
    case CSet(i) => if i < |y.pc| && y.pc[i].Closing? then Some(CallWakeup(i, Woke(y.pc[i].writable))) else None
    case CEnd(i) => Some(Release(i))
    case Inner(s) => Some(s)
    case _ => None
  }

  function Step1(k: Kernel<Chan>, s: Option<Step<Chan>>): (k': Kernel<Chan>)
    requires s.Some? ==> Enabled(k, s.value)
    ensures |k'.procs| == |k.procs|
  {
    if s.Some? then Apply(k, s.value) else k
  }

  predicate KernelAllows(y: Sys, op: Op) {
    && (Pre(y, op).Some? ==> Enabled(y.k, Pre(y, op).value))
    && (Post(y, op).Some? ==> Enabled(Step1(y.k, Pre(y, op)), Post(y, op).value))
  }

  predicate InLk(y: Sys, i: nat) {
    i < |y.k.procs| && y.k.procs[i].phase.In?
  }

  /** The tests the code makes before each step. */
  ghost predicate Guard(y: Sys, op: Op, pc: Pc) {
    var ring := y.b.ring;
    match op
    case WBegin(i, src) => pc.Free? && y.e.wend.Open?
    case WForget(i) => pc.Writing? && pc.n < |pc.src| && InLk(y, i)
    case WQuit(i) => pc.Quitting?
    case WFull(i) => pc.Writing? && pc.n < |pc.src| && y.e.readopen && IsFull(ring)
    case WSleep(i) => pc.FullWake?
    case WPut(i) => pc.Writing? && pc.n < |pc.src| && y.e.readopen && !IsFull(ring)
    case WEnd(i) => pc.Writing? && pc.n <= |pc.src| && (pc.n < |pc.src| ==> y.e.readopen && !IsFull(ring))
    case WReturn(i) => pc.LastWake?
    case RBegin(i, n) => pc.Free? && y.e.rend.Open?
    case RSleep(i) => pc.Waiting? && IsEmpty(ring) && y.e.writeopen
    case RQuit(i) => pc.Waiting? && IsEmpty(ring) && y.e.writeopen
    case RGo(i) => pc.Waiting? && InLk(y, i) && !(IsEmpty(ring) && y.e.writeopen)
    case RTake(i, fails) => pc.Copying? && !pc.failed && pc.got < pc.want && !IsEmpty(ring)
    case REnd(i) => pc.Copying? && (pc.failed || pc.got >= pc.want || IsEmpty(ring))
    case RReturn(i) => pc.ReadWake?
    case CBegin(i, w) => pc.Free? && i < |y.k.procs| && y.k.procs[i].phase.Out? && EndOf(y.e, w).Open? && Unused(y, w)
    case CLock(i) => pc.CloseStart?
    case CSet(i) => pc.Closing?
    case CEnd(i) => pc.CloseWake?
    case Inner(s) => IsInner(s)
  }

  ghost predicate Allowed(y: Sys, op: Op) {
    && |y.k.procs| == |y.pc| && |y.b.ring.data| == PIPESIZE && Actor(op) < |y.pc|
    && KernelAllows(y, op) && Guard(y, op, y.pc[Actor(op)])
  }

  ghost function PcAfter(y: Sys, op: Op, pc: Pc): Pc
    requires Guard(y, op, pc)
  {
    match op
    case WBegin(i, src) => Writing(src, 0)
    case WForget(i) => Quitting(pc.src, pc.n)
    case WFull(i) => FullWake(pc.src, pc.n)
    case WSleep(i) => Writing(pc.src, pc.n)
    case WPut(i) => Writing(pc.src, pc.n + 1)
    case WEnd(i) => LastWake(pc.src, pc.n)
    case RBegin(i, n) => Waiting(n)
    case RSleep(i) => pc
    case RGo(i) => Copying(pc.want, 0, false)
    case RTake(i, fails) => if fails then Copying(pc.want, pc.got, true) else Copying(pc.want, pc.got + 1, false)
    case REnd(i) => ReadWake(pc.want, pc.got, pc.failed)
    case CBegin(i, w) => CloseStart(w)
    case CLock(i) => Closing(pc.writable)
    case CSet(i) => CloseWake(pc.writable)
    case Inner(s) => pc
    case _ => Free
  }

  ghost function BytesAfter(y: Sys, op: Op, pc: Pc): Bytes
    requires Guard(y, op, pc) && |y.b.ring.data| == PIPESIZE
  {
    var b := y.b;
    match op
    case WPut(i) => b.(ring := Pushed(b.ring, pc.src[pc.n]), written := b.written + [pc.src[pc.n]])
    case RTake(i, fails) =>
      var ch := Front(b.ring);
      Bytes(Popped(b.ring), b.written, b.taken + [ch], if fails then b.delivered else b.delivered + [ch],
            b.failed || fails)
    case _ => b
  }

  ghost function EndsAfter(y: Sys, op: Op, pc: Pc): Ends
    requires Guard(y, op, pc)
  {
    var e := y.e;
    match op
    case CBegin(i, w) => if w then e.(wend := ClosedBy(i)) else e.(rend := ClosedBy(i))
    case CSet(i) => if pc.writable then e.(writeopen := false) else e.(readopen := false)
    case CEnd(i) =>
      var frees := if e.readopen || e.writeopen then e.frees else e.frees + 1;
      if pc.writable then e.(wend := Shut, frees := frees) else e.(rend := Shut, frees := frees)
    case _ => e
  }

  ghost function DroppedAfter(y: Sys, op: Op): bool {
    if op.WFull? || op.WEnd? then false
    else if op.WForget? && InLk(y, op.i) then y.dropped || NRead in y.k.procs[op.i].phase.owes
    else y.dropped
  }

  ghost function KernelAfter(y: Sys, op: Op): (k: Kernel<Chan>)
    requires KernelAllows(y, op)
    ensures |k.procs| == |y.k.procs|
  {
    Step1(Step1(y.k, Pre(y, op)), Post(y, op))
  }

  ghost function Do(y: Sys, op: Op): (y': Sys)
    requires Allowed(y, op)
    ensures |y'.pc| == |y.pc| && |y'.k.procs| == |y.k.procs|
  {
    hide KernelAllows, Guard;
    var pc := y.pc[Actor(op)];
    Sys(KernelAfter(y, op), y.pc[Actor(op) := PcAfter(y, op, pc)], BytesAfter(y, op, pc), EndsAfter(y, op, pc),
        DroppedAfter(y, op))
  }

  // ----- the invariant

  /**
   When it is right to sleep: writers while the pipe is full, readers while it is empty (or a killed writer has not
   woken them).
   */
  function Good(y: Sys): set<Chan> {
    (if IsFull(y.b.ring) && y.e.readopen then {NWrite} else {})
    + (if (IsEmpty(y.b.ring) && y.e.writeopen) || y.dropped || !y.e.readopen then {NRead} else {})
  }

  predicate SleepsOn(ph: Phase<Chan>, c: Chan) {
    ph.Back?
    || ((ph.Enter? || ph.Committed? || ph.Falling? || ph.Down? || ph.Asleep? || ph.Resumed?) && ph.chan == c)
  }

  predicate WakesOn(ph: Phase<Chan>, c: Chan) {
    (ph.In? && ph.owes == {}) || (ph.Waking? && ph.chan == c && ph.owes <= {c})
  }

  predicate PhaseFits(pc: Pc, ph: Phase<Chan>) {
    match pc
    case Free => ph.Out?
    case CloseStart(_) => ph.Out?
    case Writing(_, _) => (ph.In? && ph.owes <= {NRead}) || SleepsOn(ph, NWrite)
    case FullWake(_, _) => WakesOn(ph, NRead)
    case LastWake(_, _) => WakesOn(ph, NRead)
    case Quitting(_, _) => ph.In? && ph.owes == {}
    case Waiting(_) => (ph.In? && ph.owes == {}) || SleepsOn(ph, NRead)
    case Copying(_, _, _) => ph.In? && ph.owes <= {NWrite}
    case ReadWake(_, _, _) => WakesOn(ph, NWrite)
    case Closing(_) => ph.In? && ph.owes == {}
    case CloseWake(w) => WakesOn(ph, Woke(w))
  }

  /**
   What a process relies on: its end is open, or it is the one that closes it; a writer about to sleep has seen a full
   pipe. A writer stops short only with room in the pipe, so because a copyin failed. A reader stops short only at the
   end of what is there, or because a copyout failed, and comes back with nothing only if nobody can write any more.
   */
  predicate PcOk(b: Bytes, e: Ends, i: nat, pc: Pc) {
    && (IsWriter(pc) ==> e.wend.Open?)
    && (IsReader(pc) ==> e.rend.Open?)
    && (pc.FullWake? ==> IsFull(b.ring) && e.readopen)
    && (pc.Quitting? ==> pc.n < |pc.src|)
    && (pc.LastWake? ==> pc.n == |pc.src| || (e.readopen && !IsFull(b.ring)))
    && (pc.Copying? ==> pc.got <= pc.want && (pc.got == 0 && !pc.failed ==> !IsEmpty(b.ring) || !e.writeopen))
    && (pc.ReadWake? ==> pc.failed || pc.got == pc.want || (IsEmpty(b.ring) && (pc.got == 0 ==> !e.writeopen)))
    && (pc.CloseStart? || pc.Closing? ==> EndOf(e, pc.writable) == ClosedBy(i) && IsOpen(e, pc.writable))
    && (pc.CloseWake? ==> EndOf(e, pc.writable) == ClosedBy(i) && !IsOpen(e, pc.writable))
  }

  predicate EndsOk(e: Ends) {
    && (e.wend.Open? ==> e.writeopen) && (e.wend.Shut? ==> !e.writeopen)
    && (e.rend.Open? ==> e.readopen) && (e.rend.Shut? ==> !e.readopen)
    && e.frees == (if e.wend.Shut? && e.rend.Shut? then 1 else 0)
  }

  predicate IsCloser(pc: Pc, writable: bool) {
    (pc.CloseStart? || pc.Closing? || pc.CloseWake?) && pc.writable == writable
  }

  predicate CloserOk(y: Sys, writable: bool) {
    EndOf(y.e, writable).ClosedBy? ==>
      EndOf(y.e, writable).i < |y.pc| && IsCloser(y.pc[EndOf(y.e, writable).i], writable)
  }

  /** A writer that owes the readers a wakeup has put something into the pipe. */
  predicate OwesOk(y: Sys, i: nat)
    requires i < |y.pc| && i < |y.k.procs|
  {
    y.pc[i].Writing? && y.k.procs[i].phase.In? && NRead in y.k.procs[i].phase.owes ==> !IsEmpty(y.b.ring)
  }

  ghost predicate BytesOk(b: Bytes) {
    RingOk(b.ring, b.written, b.taken) && (!b.failed ==> b.delivered == b.taken)
  }

  ghost predicate Invariant(y: Sys) {
    && |y.k.procs| == |y.pc|
    && KernelOk(y.k) && NoLost(y.k, Good(y))
    && BytesOk(y.b) && EndsOk(y.e) && CloserOk(y, true) && CloserOk(y, false)
    && (forall i :: 0 <= i < |y.pc| ==> PhaseFits(y.pc[i], y.k.procs[i].phase))
    && (forall i :: 0 <= i < |y.pc| ==> PcOk(y.b, y.e, i, y.pc[i]))
    && (forall i :: 0 <= i < |y.pc| ==> OwesOk(y, i))
  }

  // ----- every step keeps it

  lemma StepBytes(y: Sys, op: Op)
    requires Invariant(y) && Allowed(y, op)
    ensures BytesOk(Do(y, op).b)
  {
    hide KernelOk, NoLost, KernelAllows, EndsOk, PhaseFits, PcOk, RingOk, KernelAfter, PcAfter, EndsAfter;
    var b, pc := y.b, y.pc[Actor(op)];
    match op
    case WPut(i) => PushKeeps(b.ring, b.written, b.taken, pc.src[pc.n]);
    case RTake(i, fails) => PopKeeps(b.ring, b.written, b.taken);
    case _ =>
  }

  lemma OtherPhase(y: Sys, op: Op, i: nat)
    requires Allowed(y, op) && i < |y.pc| && i != Actor(op)
    ensures Do(y, op).pc[i] == y.pc[i] && Do(y, op).k.procs[i].phase == y.k.procs[i].phase
  {
    hide Enabled, Apply, Guard, PcAfter, BytesAfter, EndsAfter;
    ActorsMatch(y, op);
    var k1 := Step1(y.k, Pre(y, op));
    if Pre(y, op).Some? {
      StepMovesOne(y.k, Pre(y, op).value, i);
    }
    if Post(y, op).Some? {
      StepMovesOne(k1, Post(y, op).value, i);
    }
  }

  lemma ActorsMatch(y: Sys, op: Op)
    ensures Pre(y, op).Some? ==> Pre(y, op).value.i == Actor(op)
    ensures Post(y, op).Some? ==> Post(y, op).value.i == Actor(op)
  {
  }

  lemma ActorPhase(y: Sys, op: Op)
    requires Allowed(y, op) && PhaseFits(y.pc[Actor(op)], y.k.procs[Actor(op)].phase)
    ensures PhaseFits(Do(y, op).pc[Actor(op)], Do(y, op).k.procs[Actor(op)].phase)
  {
    if op.Inner? {
      InnerPhase(y.k, op.s, y.pc[op.s.i]);
    } else {
      OuterPhase(y, op);
    }
  }

  lemma InnerPhase(k: Kernel<Chan>, s: Step<Chan>, pc: Pc)
    requires IsInner(s) && Enabled(k, s) && PhaseFits(pc, k.procs[s.i].phase)
    ensures PhaseFits(pc, Apply(k, s).procs[s.i].phase)
  {
    hide Woken;
  }

  lemma OuterPhase(y: Sys, op: Op)
    requires Allowed(y, op) && !op.Inner? && PhaseFits(y.pc[op.i], y.k.procs[op.i].phase)
    ensures PhaseFits(Do(y, op).pc[op.i], Do(y, op).k.procs[op.i].phase)
  {
    hide Woken, IsFull, IsEmpty, BytesAfter, EndsAfter, DroppedAfter, Unused;
  }

  /** Whoever writes the pipe holds its lock. */
  lemma WritersHoldLk(y: Sys, op: Op)
    requires Allowed(y, op)
    ensures var y' := Do(y, op);
            y'.b != y.b || y'.e.readopen != y.e.readopen || y'.e.writeopen != y.e.writeopen || op.CEnd?
                || y'.dropped != y.dropped
            ==> HoldsLk(y.k.procs[Actor(op)].phase)
  {
    hide Apply, IsFull, IsEmpty, Unused, Pushed, Popped, Front, PcAfter;
  }

  lemma OneInside(y: Sys, i: nat, j: nat)
    requires KernelOk(y.k) && i < |y.k.procs| && j < |y.k.procs|
    requires HoldsLk(y.k.procs[i].phase) && HoldsLk(y.k.procs[j].phase)
    ensures i == j
  {
    hide WokenOk, FieldsOk;
  }

  lemma OtherPc(y: Sys, op: Op, i: nat)
    requires Invariant(y) && Allowed(y, op) && i < |y.pc| && i != Actor(op)
    ensures PcOk(Do(y, op).b, Do(y, op).e, i, y.pc[i])
  {
    hide KernelOk, NoLost, BytesOk, EndsOk, KernelAllows, CloserOk, IsFull, IsEmpty, KernelAfter, PcAfter, Pushed,
         Popped, DroppedAfter;
    var y' := Do(y, op);
    assert PcOk(y.b, y.e, i, y.pc[i]) && PcOk(y.b, y.e, Actor(op), y.pc[Actor(op)]);
    assert PhaseFits(y.pc[i], y.k.procs[i].phase);
    WritersHoldLk(y, op);
    if HoldsLk(y.k.procs[i].phase) && HoldsLk(y.k.procs[Actor(op)].phase) {
      OneInside(y, i, Actor(op));
    }
  }

  lemma ActorPc(y: Sys, op: Op)
    requires Allowed(y, op) && PcOk(y.b, y.e, Actor(op), y.pc[Actor(op)]) && EndsOk(y.e)
    ensures PcOk(Do(y, op).b, Do(y, op).e, Actor(op), Do(y, op).pc[Actor(op)])
  {
    hide KernelAllows, IsFull, IsEmpty, KernelAfter, Pushed, Popped, DroppedAfter, Unused;
  }

  lemma StepPcs(y: Sys, op: Op)
    requires Invariant(y) && Allowed(y, op)
    ensures var y' := Do(y, op);
            && (forall i :: 0 <= i < |y'.pc| ==> PhaseFits(y'.pc[i], y'.k.procs[i].phase))
            && (forall i :: 0 <= i < |y'.pc| ==> PcOk(y'.b, y'.e, i, y'.pc[i]))
  {
    hide KernelOk, NoLost, BytesOk, EndsOk, CloserOk, Do, PhaseFits, PcOk, KernelAllows, Guard;
    var y' := Do(y, op);
    forall i | 0 <= i < |y'.pc|
      ensures PhaseFits(y'.pc[i], y'.k.procs[i].phase) && PcOk(y'.b, y'.e, i, y'.pc[i])
    {
      if i == Actor(op) {
        ActorPhase(y, op);
        ActorPc(y, op);
      } else {
        OtherPhase(y, op, i);
        OtherPc(y, op, i);
      }
    }
  }

  lemma StepOwes(y: Sys, op: Op, i: nat)
    requires Invariant(y) && Allowed(y, op) && i < |y.pc|
    ensures OwesOk(Do(y, op), i)
  {
    hide KernelOk, NoLost, EndsOk, PcOk, CloserOk, RingOk;
    assert OwesOk(y, i);
    if i == Actor(op) {
      ActorOwes(y, op);
    } else {
      OtherPhase(y, op, i);
      hide Guard, KernelAllows, PcAfter, BytesAfter, KernelAfter;
      WritersHoldLk(y, op);
      if y.pc[i].Writing? && y.k.procs[i].phase.In? && HoldsLk(y.k.procs[Actor(op)].phase) {
        OneInside(y, i, Actor(op));
      }
    }
  }

  lemma ActorOwes(y: Sys, op: Op)
    requires Allowed(y, op) && OwesOk(y, Actor(op)) && BytesOk(y.b)
    requires PhaseFits(y.pc[Actor(op)], y.k.procs[Actor(op)].phase)
    ensures OwesOk(Do(y, op), Actor(op))
  {
    if op.Inner? {
      InnerOwes(y, op.s);
    } else {
      OuterOwes(y, op);
    }
  }

  lemma InnerOwes(y: Sys, s: Step<Chan>)
    requires Allowed(y, Inner(s)) && OwesOk(y, s.i) && PhaseFits(y.pc[s.i], y.k.procs[s.i].phase)
    ensures OwesOk(Do(y, Inner(s)), s.i)
  {
    hide Woken, IsFull, IsEmpty;
  }

  lemma OuterOwes(y: Sys, op: Op)
    requires Allowed(y, op) && !op.Inner? && OwesOk(y, op.i) && BytesOk(y.b)
    requires PhaseFits(y.pc[op.i], y.k.procs[op.i].phase)
    ensures OwesOk(Do(y, op), op.i)
  {
    hide Woken, IsFull, IsEmpty, EndsAfter, DroppedAfter, Unused, RingOk;
    var pc := y.pc[op.i];
    if op.WPut? {
      PushedNotEmpty(y.b, pc.src[pc.n]);
    }
  }

  /** The last to close an end is the one that frees the pipe. */
  lemma StepEnds(y: Sys, op: Op)
    requires Invariant(y) && Allowed(y, op)
    ensures EndsOk(Do(y, op).e)
  {
    hide KernelOk, NoLost, BytesOk, KernelAllows, IsFull, IsEmpty, KernelAfter, PcAfter, BytesAfter, DroppedAfter,
         Unused;
    assert PcOk(y.b, y.e, Actor(op), y.pc[Actor(op)]);
    if op.CEnd? {
      OtherEnd(y, op.i);
    }
  }

  lemma OtherEnd(y: Sys, i: nat)
    requires Invariant(y) && i < |y.pc| && y.pc[i].CloseWake?
    ensures var w := !y.pc[i].writable; EndOf(y.e, w).ClosedBy? ==> IsOpen(y.e, w)
  {
    hide KernelOk, NoLost, BytesOk, IsFull;
    var w := !y.pc[i].writable;
    assert CloserOk(y, w);
    if EndOf(y.e, w).ClosedBy? && !IsOpen(y.e, w) {
      var j := EndOf(y.e, w).i;
      assert PcOk(y.b, y.e, j, y.pc[j]);
      assert PhaseFits(y.pc[j], y.k.procs[j].phase) && PhaseFits(y.pc[i], y.k.procs[i].phase);
      OneInside(y, i, j);
    }
  }

  lemma StepClosers(y: Sys, op: Op, w: bool)
    requires Invariant(y) && Allowed(y, op)
    ensures CloserOk(Do(y, op), w)
  {
    hide KernelOk, NoLost, BytesOk, EndsOk, KernelAllows, IsFull, IsEmpty, KernelAfter, BytesAfter, DroppedAfter,
         Unused, PhaseFits;
    assert PcOk(y.b, y.e, Actor(op), y.pc[Actor(op)]);
    assert CloserOk(y, w);
  }

  // ----- no wakeup is lost, but by killed writers

  /** What stops being a reason to sleep is owed a wakeup. */
  lemma GoodShrinks(y: Sys, op: Op)
    requires Invariant(y) && Allowed(y, op)
    ensures var lost := Good(y) - Good(Do(y, op));
            if Pre(y, op).Some? then lost <= Pre(y, op).value.more else lost == {}
  {
    hide KernelOk, NoLost, EndsOk, KernelAllows, KernelAfter, PcAfter, PhaseFits, CloserOk, RingOk;
    var b, pc := y.b, y.pc[Actor(op)];
    if op.WPut? {
      NotFullStays(b);
      PushedNotEmpty(b, pc.src[pc.n]);
    }
    if op.RTake? {
      PoppedNotFull(b);
      PopKeeps(b.ring, b.written, b.taken);
    }
  }

  lemma NotFullStays(b: Bytes)
    requires BytesOk(b)
    ensures !(IsFull(b.ring) && IsEmpty(b.ring))
  {
    Counters(b.ring, b.written, b.taken);
  }

  lemma PushedNotEmpty(b: Bytes, ch: byte)
    requires BytesOk(b) && !IsFull(b.ring)
    ensures !IsEmpty(Pushed(b.ring, ch))
  {
    PushKeeps(b.ring, b.written, b.taken, ch);
    Counters(Pushed(b.ring, ch), b.written + [ch], b.taken);
  }

  lemma PoppedNotFull(b: Bytes)
    requires BytesOk(b) && !IsEmpty(b.ring)
    ensures !IsFull(Popped(b.ring))
  {
    PopKeeps(b.ring, b.written, b.taken);
    Counters(Popped(b.ring), b.written, b.taken + [Front(b.ring)]);
  }

  /** sleep is called for a reason, and only a killed writer gives up on the wakeups it owes. */
  lemma PostIsJustified(y: Sys, op: Op)
    requires Invariant(y) && Allowed(y, op) && Post(y, op).Some?
    ensures Post(y, op).value.CallSleep? ==> Post(y, op).value.c in Good(Do(y, op))
    ensures op.WForget? ==> y.k.procs[op.i].phase.owes <= Good(Do(y, op))
  {
    hide KernelOk, NoLost, EndsOk, KernelAllows, KernelAfter, PcAfter, CloserOk, RingOk;
    assert PcOk(y.b, y.e, Actor(op), y.pc[Actor(op)]);
    assert PhaseFits(y.pc[Actor(op)], y.k.procs[Actor(op)].phase);
  }

  lemma StepNoLost(y: Sys, op: Op)
    requires Invariant(y) && Allowed(y, op)
    ensures KernelOk(Do(y, op).k) && NoLost(Do(y, op).k, Good(Do(y, op)))
  {
    hide KernelOk, NoLost, BytesOk, EndsOk, PhaseFits, PcOk, CloserOk, PcAfter, BytesAfter, EndsAfter, DroppedAfter,
         Good, Guard;
    var good, good' := Good(y), Good(Do(y, op));
    var pre, post := Pre(y, op), Post(y, op);
    var k1 := Step1(y.k, pre);
    GoodShrinks(y, op);
    if pre.Some? {
      StepKeepsKernel(y.k, pre.value);
      StepKeepsNoLost(y.k, pre.value, good);
      WriteKeepsNoLost(k1, pre.value.i, good, good');
    } else {
      NoLostMonotone(k1, good, good');
    }
    if post.Some? {
      PostIsJustified(y, op);
      DropIsForget(y, op);
      StepKeepsKernel(k1, post.value);
      StepKeepsNoLost(k1, post.value, good');
    }
  }

  lemma DropIsForget(y: Sys, op: Op)
    requires Allowed(y, op) && Post(y, op).Some?
    ensures Post(y, op).value.Drop? ==> op.WForget? && Pre(y, op) == None && Post(y, op).value.i == op.i
  {
  }

  lemma NoLostMonotone(k: Kernel<Chan>, good: set<Chan>, good': set<Chan>)
    requires NoLost(k, good) && good - good' == {}
    ensures NoLost(k, good')
  {
    forall c | c in good
      ensures c in good'
    {
      assert c !in good - good';
    }
  }

  lemma StepKeeps(y: Sys, op: Op)
    requires Invariant(y) && Allowed(y, op)
    ensures Invariant(Do(y, op))
  {
    hide KernelOk, NoLost, BytesOk, EndsOk, PhaseFits, PcOk, CloserOk, OwesOk, Do, KernelAllows, Guard;
    StepBytes(y, op);
    StepPcs(y, op);
    StepEnds(y, op);
    StepClosers(y, op, true);
    StepClosers(y, op, false);
    StepNoLost(y, op);
    forall i | 0 <= i < |Do(y, op).pc|
      ensures OwesOk(Do(y, op), i)
    {
      StepOwes(y, op, i);
    }
  }

  // ----- runs

  ghost predicate Legal(y: Sys, ops: seq<Op>)
    decreases |ops|, 0
  {
    ops == [] || (Legal(y, ops[..|ops| - 1]) && Allowed(After(y, ops[..|ops| - 1]), ops[|ops| - 1]))
  }

  ghost function After(y: Sys, ops: seq<Op>): Sys
    requires Legal(y, ops)
    decreases |ops|, 1
  {
    if ops == [] then y else Do(After(y, ops[..|ops| - 1]), ops[|ops| - 1])
  }

  /** pipealloc, before any process uses the pipe. */
  ghost predicate Fresh(y: Sys) {
    && |y.k.procs| == |y.pc| && y.k.lk == None
    && (forall i :: 0 <= i < |y.pc| ==> y.pc[i].Free? && y.k.procs[i].phase.Out? && y.k.procs[i].chan == None)
    && |y.b.ring.data| == PIPESIZE && y.b == Bytes(Ring(y.b.ring.data, 0, 0), [], [], [], false)
    && y.e == Ends(true, true, Open, Open, 0) && !y.dropped
  }

  lemma {:induction false} RunKeeps(y: Sys, ops: seq<Op>)
    requires Fresh(y) && Legal(y, ops)
    ensures Invariant(After(y, ops))
    decreases |ops|
  {
    hide KernelOk, NoLost;
    if ops == [] {
      BootOk(y.k, Good(y));
    } else {
      RunKeeps(y, ops[..|ops| - 1]);
      StepKeeps(After(y, ops[..|ops| - 1]), ops[|ops| - 1]);
    }
  }

  /**
   First in, first out: on every run the bytes taken are a prefix of the bytes written, at most PIPESIZE are in between,
   and readers get what is taken unless a copyout fails.
   */
  lemma Fifo(y: Sys, ops: seq<Op>)
    requires Fresh(y) && Legal(y, ops)
    ensures var b := After(y, ops).b;
            b.taken <= b.written && |b.written| - |b.taken| <= PIPESIZE && (!b.failed ==> b.delivered == b.taken)
  {
    RunKeeps(y, ops);
  }

  /** With the lock free, a writer sleeps only if the pipe is full and the read end is open. */
  lemma WriterSleeps(y: Sys, ops: seq<Op>, i: nat)
    requires Fresh(y) && Legal(y, ops) && After(y, ops).k.lk == None && i < |After(y, ops).k.procs|
    requires WaitsOn(After(y, ops).k.procs[i]) == Some(NWrite)
    ensures var z := After(y, ops); |z.b.written| - |z.b.taken| == PIPESIZE && z.e.readopen
  {
    RunKeeps(y, ops);
    var z := After(y, ops);
    FreeMeansNoLost(z.k, Good(z));
    Counters(z.b.ring, z.b.written, z.b.taken);
  }

  /**
   With the lock free, a reader sleeps only if the pipe is empty and the write end is open, or a killed writer left
   bytes behind.
   */
  lemma ReaderSleeps(y: Sys, ops: seq<Op>, i: nat)
    requires Fresh(y) && Legal(y, ops) && After(y, ops).k.lk == None && i < |After(y, ops).k.procs|
    requires WaitsOn(After(y, ops).k.procs[i]) == Some(NRead)
    ensures var z := After(y, ops); (z.b.written == z.b.taken && z.e.writeopen) || z.dropped
  {
    RunKeeps(y, ops);
    var z := After(y, ops);
    FreeMeansNoLost(z.k, Good(z));
    Counters(z.b.ring, z.b.written, z.b.taken);
    assert PhaseFits(z.pc[i], z.k.procs[i].phase) && PcOk(z.b, z.e, i, z.pc[i]);
    assert IsReader(z.pc[i]);
  }

  /** Step j of the run is the early return of a writer that has stored bytes since its last wakeup. */
  ghost predicate ForgetsAt(y: Sys, ops: seq<Op>, j: nat)
    requires j < |ops|
  {
    && Legal(y, ops[..j]) && ops[j].WForget?
    && var z := After(y, ops[..j]);
    && InLk(z, ops[j].i) && NRead in z.k.procs[ops[j].i].phase.owes
  }

  /** A step that wakes the readers. */
  predicate WakesReaders(op: Op) {
    op.WFull? || op.WEnd?
  }

  /** A writer owing a wakeup returned early at step j, and no writer has woken the readers since. */
  ghost predicate DroppedSince(y: Sys, ops: seq<Op>, j: nat) {
    j < |ops| && ForgetsAt(y, ops, j) && forall i :: j < i < |ops| ==> !WakesReaders(ops[i])
  }

  /** A wakeup is dropped by the early return of a writer that owes one, until the next wakeup, and by nothing else. */
  lemma {:induction false} DroppedOnlyByForget(y: Sys, ops: seq<Op>)
    requires Fresh(y) && Legal(y, ops)
    ensures After(y, ops).dropped <==> exists j: nat :: DroppedSince(y, ops, j)
    decreases |ops|
  {
    if ops != [] {
      var last := |ops| - 1;
      var pre := ops[..last];
      LastStepDrops(y, ops);
      DroppedOnlyByForget(y, pre);
      hide Legal, After;
      forall j: nat
        ensures DroppedSince(y, ops, j)
                <==> (j == last && ForgetsAt(y, ops, last)) || (DroppedSince(y, pre, j) && !WakesReaders(ops[last]))
      {
        DroppedSincePrefix(y, ops, j);
      }
      hide DroppedSince, ForgetsAt;
      assert ForgetsAt(y, ops, last) ==> DroppedSince(y, ops, last);
    }
  }

  lemma DroppedSincePrefix(y: Sys, ops: seq<Op>, j: nat)
    requires ops != []
    ensures var last := |ops| - 1;
            DroppedSince(y, ops, j)
            <==> (j == last && ForgetsAt(y, ops, last)) || (DroppedSince(y, ops[..last], j) && !WakesReaders(ops[last]))
  {
    hide Legal, After;
    var last := |ops| - 1;
    if j < last {
      assert ops[..last][..j] == ops[..j];
      assert DroppedSince(y, ops, j) ==> !WakesReaders(ops[last]);
    }
  }

  lemma LastStepDrops(y: Sys, ops: seq<Op>)
    requires ops != [] && Legal(y, ops)
    ensures Legal(y, ops[..|ops| - 1])
    ensures After(y, ops).dropped <==>
            (After(y, ops[..|ops| - 1]).dropped && !WakesReaders(ops[|ops| - 1])) || ForgetsAt(y, ops, |ops| - 1)
  {
  }

  // ----- what pipewrite and piperead return

  function Grown(s: seq<byte>, s': seq<byte>): seq<byte> {
    if |s| <= |s'| then s'[|s|..] else []
  }

  /** The bytes that process i has stored in the pipe. */
  ghost function StoredBy(y: Sys, ops: seq<Op>, i: nat): seq<byte>
    requires Legal(y, ops)
  {
    if ops == [] then []
    else
      var pre := ops[..|ops| - 1];
      StoredBy(y, pre, i)
      + if Actor(ops[|ops| - 1]) == i then Grown(After(y, pre).b.written, After(y, ops).b.written) else []
  }

  /** The bytes that process i has got out of it. */
  ghost function DeliveredTo(y: Sys, ops: seq<Op>, i: nat): seq<byte>
    requires Legal(y, ops)
  {
    if ops == [] then []
    else
      var pre := ops[..|ops| - 1];
      DeliveredTo(y, pre, i)
      + if Actor(ops[|ops| - 1]) == i then Grown(After(y, pre).b.delivered, After(y, ops).b.delivered) else []
  }

  predicate Begins(op: Op, i: nat) {
    (op.WBegin? || op.RBegin? || op.CBegin?) && op.i == i
  }

  /** Step b is the last call that process i has begun. */
  ghost predicate LastCall(y: Sys, ops: seq<Op>, i: nat, b: nat) {
    b < |ops| && Legal(y, ops[..b]) && forall l :: b < l < |ops| ==> !Begins(ops[l], i)
  }

  lemma LastCallMore(y: Sys, ops: seq<Op>, i: nat, b: nat)
    requires ops != [] && LastCall(y, ops[..|ops| - 1], i, b) && !Begins(ops[|ops| - 1], i)
    ensures b < |ops| - 1 && ops[..|ops| - 1][..b] == ops[..b] && ops[..|ops| - 1][b] == ops[b]
    ensures LastCall(y, ops, i, b) && Legal(y, ops[..b])
  {
    hide Begins;
    var pre := ops[..|ops| - 1];
    assert pre[..b] == ops[..b];
    forall l | b < l < |ops|
      ensures !Begins(ops[l], i)
    {
      if l < |pre| {
        assert pre[l] == ops[l];
      }
    }
  }

  /** The call of pipewrite at step b was given src, and has stored the first n bytes of it. */
  ghost predicate HasStored(y: Sys, ops: seq<Op>, i: nat, b: nat, src: seq<byte>, n: nat) {
    && Legal(y, ops) && LastCall(y, ops, i, b) && ops[b] == WBegin(i, src)
    && n <= |src| && StoredBy(y, ops, i) == StoredBy(y, ops[..b], i) + src[..n]
  }

  lemma WriterStep(z: Sys, op: Op, i: nat)
    requires Allowed(z, op) && i < |z.pc| && IsWriter(Do(z, op).pc[i])
    ensures var pc, pc' := z.pc[i], Do(z, op).pc[i];
            if Begins(op, i) then op == WBegin(i, pc'.src) && pc'.n == 0 && Do(z, op).b == z.b
            else
              && IsWriter(pc) && pc'.src == pc.src
              && (pc.n <= |pc.src| ==>
                    && pc.n <= pc'.n <= |pc.src|
                    && (if Actor(op) == i then Grown(z.b.written, Do(z, op).b.written) else []) == pc.src[pc.n..pc'.n])
  {
    hide KernelAllows, KernelAfter, EndsAfter, DroppedAfter, IsFull, IsEmpty, Unused;
  }

  /** On every run a process in pipewrite has stored, in this call, exactly the first n bytes that it was given. */
  lemma {:induction false} WriterCall(y: Sys, ops: seq<Op>, i: nat) returns (b: nat)
    requires Fresh(y) && Legal(y, ops) && i < |After(y, ops).pc| && IsWriter(After(y, ops).pc[i])
    ensures HasStored(y, ops, i, b, After(y, ops).pc[i].src, After(y, ops).pc[i].n)
    decreases |ops|
  {
    hide Fresh, Do, Allowed, LastCall, Begins, Grown;
    if ops == [] {
      FreshIsIdle(y, i);
      assert false;
    } else {
      var last := |ops| - 1;
      var pre, op := ops[..last], ops[last];
      var z := After(y, pre);
      SameCount(z, op);
      WriterStep(z, op, i);
      if Begins(op, i) {
        b := last;
        CallNow(y, ops, i);
        WriteBegins(y, ops, i);
        assert op.src[..0] == [];
      } else {
        b := WriterCall(y, pre, i);
        LastCallMore(y, ops, i, b);
        StoresMore(StoredBy(y, ops[..b], i), z.pc[i].src, z.pc[i].n, After(y, ops).pc[i].n);
      }
    }
  }

  /**
   pipewrite returns how much it has stored: all of it, or less only if there was room and the read end was open, so
   because a copyin failed. When it returns -1 it has stored less than all.
   */
  lemma WriteReturns(y: Sys, ops: seq<Op>, i: nat) returns (b: nat)
    requires Fresh(y) && Legal(y, ops) && i < |After(y, ops).pc|
    requires After(y, ops).pc[i].LastWake? || After(y, ops).pc[i].Quitting?
    ensures var z := After(y, ops);
            var src, n := z.pc[i].src, z.pc[i].n;
            && HasStored(y, ops, i, b, src, n)
            && (z.pc[i].LastWake? && n < |src| ==> z.e.readopen && |z.b.written| - |z.b.taken| < PIPESIZE)
            && (z.pc[i].Quitting? ==> n < |src|)
  {
    b := WriterCall(y, ops, i);
    RunKeeps(y, ops);
    hide HasStored, Legal, After, Fresh;
    StopsShort(After(y, ops), i);
  }

  lemma StopsShort(z: Sys, i: nat)
    requires Invariant(z) && i < |z.pc|
    ensures z.pc[i].LastWake? && z.pc[i].n != |z.pc[i].src| ==>
              z.e.readopen && |z.b.written| - |z.b.taken| < PIPESIZE
    ensures z.pc[i].Quitting? ==> z.pc[i].n < |z.pc[i].src|
    ensures z.pc[i].ReadWake? ==>
              z.pc[i].failed || z.pc[i].got == z.pc[i].want
              || (z.b.written == z.b.taken && (z.pc[i].got == 0 ==> !z.e.writeopen))
  {
    hide KernelOk, NoLost, EndsOk, CloserOk, PhaseFits, OwesOk;
    assert PcOk(z.b, z.e, i, z.pc[i]);
    Counters(z.b.ring, z.b.written, z.b.taken);
  }

  function GotOf(pc: Pc): nat {
    if pc.Copying? || pc.ReadWake? then pc.got else 0
  }

  function FailedOf(pc: Pc): bool {
    (pc.Copying? || pc.ReadWake?) && pc.failed
  }

  /** The call of piperead at step b asked for want bytes, and has got as many as got, the last that the pipe gave. */
  ghost predicate HasRead(y: Sys, ops: seq<Op>, i: nat, b: nat, want: nat, got: nat, failed: bool) {
    && Legal(y, ops) && LastCall(y, ops, i, b) && ops[b] == RBegin(i, want) && got <= want
    && got <= |After(y, ops).b.delivered|
    && DeliveredTo(y, ops, i) == DeliveredTo(y, ops[..b], i)
                                 + After(y, ops).b.delivered[|After(y, ops).b.delivered| - got..]
    && (failed ==> exists l :: b < l < |ops| && ops[l] == RTake(i, true))
  }

  /** What the step delivers to i goes behind the got bytes that it has. */
  ghost predicate Continues(z: Sys, op: Op, i: nat, got: nat, got': nat)
    requires Allowed(z, op)
  {
    var d, d' := z.b.delivered, Do(z, op).b.delivered;
    && got <= |d| && got' <= |d'|
    && d[|d| - got..] + (if Actor(op) == i then Grown(d, d') else []) == d'[|d'| - got'..]
  }

  /** A step of another process leaves a reader that has the lock alone. */
  lemma OthersRead(z: Sys, op: Op, i: nat)
    requires Invariant(z) && Allowed(z, op) && i < |z.pc| && i != Actor(op) && IsReader(z.pc[i])
    requires GotOf(z.pc[i]) <= |z.b.delivered|
    ensures Do(z, op).pc[i] == z.pc[i] && Continues(z, op, i, GotOf(z.pc[i]), GotOf(z.pc[i]))
  {
    hide KernelOk, NoLost, BytesOk, EndsOk, CloserOk, PcOk, OwesOk, Allowed, Do, Continues;
    OtherStays(z, op, i);
    assert PhaseFits(z.pc[i], z.k.procs[i].phase);
    if HoldsLk(z.k.procs[i].phase) {
      LockedOut(z, op, i);
    }
    NothingContinues(z, op, i, GotOf(z.pc[i]));
  }

  lemma NothingContinues(z: Sys, op: Op, i: nat, got: nat)
    requires Allowed(z, op) && i != Actor(op) && got <= |z.b.delivered| && (got == 0 || Do(z, op).b == z.b)
    ensures Continues(z, op, i, got, got)
  {
    hide Allowed, Do, Grown;
    var d, d' := z.b.delivered, Do(z, op).b.delivered;
    assert d[|d| - got..] + [] == d[|d| - got..];
    if got == 0 {
      assert d[|d|..] == [] == d'[|d'|..];
    }
  }

  lemma TailContinues(z: Sys, op: Op, i: nat, got: nat, got': nat)
    requires Allowed(z, op) && i == Actor(op) && got <= |z.b.delivered| && z.b.delivered <= Do(z, op).b.delivered
    requires |Do(z, op).b.delivered| - |z.b.delivered| == got' - got
    ensures Continues(z, op, i, got, got')
  {
    hide Allowed, Do;
    var d, d' := z.b.delivered, Do(z, op).b.delivered;
    assert d == d'[..|d|];
    assert d[|d| - got..] + d'[|d|..] == d'[|d| - got..];
  }

  lemma LockedOut(z: Sys, op: Op, i: nat)
    requires KernelOk(z.k) && Allowed(z, op) && i < |z.pc| && i != Actor(op) && HoldsLk(z.k.procs[i].phase)
    ensures Do(z, op).b == z.b
  {
    WritersHoldLk(z, op);
    hide KernelOk, KernelAllows, Guard, Do;
    if HoldsLk(z.k.procs[Actor(op)].phase) {
      OneInside(z, i, Actor(op));
    }
  }

  lemma SelfReads(z: Sys, op: Op, i: nat)
    requires Allowed(z, op) && i < |z.pc| && i == Actor(op) && IsReader(Do(z, op).pc[i])
    ensures Begins(op, i) ==> op.RBegin? && Do(z, op).pc[i] == Waiting(op.n) && Do(z, op).b == z.b
    ensures !Begins(op, i) ==> IsReader(z.pc[i]) && Do(z, op).pc[i].want == z.pc[i].want
    ensures !Begins(op, i) && FailedOf(Do(z, op).pc[i]) ==> FailedOf(z.pc[i]) || op == RTake(i, true)
    ensures !Begins(op, i) && GotOf(z.pc[i]) <= z.pc[i].want && GotOf(z.pc[i]) <= |z.b.delivered| ==>
              GotOf(Do(z, op).pc[i]) <= z.pc[i].want && Continues(z, op, i, GotOf(z.pc[i]), GotOf(Do(z, op).pc[i]))
  {
    hide KernelAllows, KernelAfter, EndsAfter, DroppedAfter, IsFull, IsEmpty, Unused, Popped, Pushed, Continues;
    if !Begins(op, i) && GotOf(z.pc[i]) <= |z.b.delivered| {
      TailContinues(z, op, i, GotOf(z.pc[i]), GotOf(Do(z, op).pc[i]));
    }
  }

  /** On every run a process in piperead has got, in this call, the last bytes that the pipe gave, got of them. */
  lemma {:induction false} ReaderCall(y: Sys, ops: seq<Op>, i: nat) returns (b: nat)
    requires Fresh(y) && Legal(y, ops) && i < |After(y, ops).pc| && IsReader(After(y, ops).pc[i])
    ensures var pc := After(y, ops).pc[i]; HasRead(y, ops, i, b, pc.want, GotOf(pc), FailedOf(pc))
    decreases |ops|
  {
    hide Fresh, Do, Allowed, LastCall, Begins, Grown, Invariant, GotOf, FailedOf, HasRead, Continues;
    if ops == [] {
      FreshIsIdle(y, i);
      assert false;
    } else {
      var last := |ops| - 1;
      var pre, op := ops[..last], ops[last];
      var z := After(y, pre);
      SameCount(z, op);
      RunKeeps(y, pre);
      if Actor(op) == i {
        SelfReads(z, op, i);
        if Begins(op, i) {
          b := last;
          ReadBegins(y, ops, i);
        } else {
          b := ReaderCall(y, pre, i);
          ReadsMore(y, ops, i, b);
        }
      } else {
        OtherStays(z, op, i);
        b := ReaderCall(y, pre, i);
        ReadsMore(y, ops, i, b);
      }
    }
  }

  lemma OtherStays(z: Sys, op: Op, i: nat)
    requires Allowed(z, op) && i < |z.pc| && i != Actor(op)
    ensures Do(z, op).pc[i] == z.pc[i] && !Begins(op, i)
  {
    hide Allowed, KernelAfter, PcAfter;
  }

  lemma ReadBegins(y: Sys, ops: seq<Op>, i: nat)
    requires ops != [] && Legal(y, ops) && i < |After(y, ops).pc|
    requires var last := |ops| - 1;
             ops[last].RBegin? && ops[last].i == i && After(y, ops).pc[i] == Waiting(ops[last].n)
             && After(y, ops).b == After(y, ops[..last]).b
    ensures var pc := After(y, ops).pc[i]; HasRead(y, ops, i, |ops| - 1, pc.want, GotOf(pc), FailedOf(pc))
  {
    CallNow(y, ops, i);
    WriteBegins(y, ops, i);
    hide Do, Allowed, LastCall, Legal;
  }

  lemma ReadsMore(y: Sys, ops: seq<Op>, i: nat, b: nat)
    requires ops != [] && Legal(y, ops) && Invariant(After(y, ops[..|ops| - 1])) && !Begins(ops[|ops| - 1], i)
    requires i < |After(y, ops[..|ops| - 1]).pc| && i < |After(y, ops).pc|
    requires var pc := After(y, ops[..|ops| - 1]).pc[i];
             IsReader(pc) && HasRead(y, ops[..|ops| - 1], i, b, pc.want, GotOf(pc), FailedOf(pc))
    requires IsReader(After(y, ops).pc[i])
    ensures var pc := After(y, ops).pc[i]; HasRead(y, ops, i, b, pc.want, GotOf(pc), FailedOf(pc))
  {
    hide Do, Allowed, LastCall, Begins, Grown, Invariant, GotOf, FailedOf, IsReader, Continues, DeliveredTo;
    var last := |ops| - 1;
    var pre, op := ops[..last], ops[last];
    var z := After(y, pre);
    LastCallMore(y, ops, i, b);
    if Actor(op) == i {
      SelfReads(z, op, i);
    } else {
      OthersRead(z, op, i);
    }
    ReadFailed(ops, i, b);
    DeliversMore(y, ops, i, b, GotOf(z.pc[i]), GotOf(After(y, ops).pc[i]));
  }

  lemma DeliversMore(y: Sys, ops: seq<Op>, i: nat, b: nat, got: nat, got': nat)
    requires ops != [] && Legal(y, ops) && b < |ops| - 1 && Legal(y, ops[..b])
    requires var z := After(y, ops[..|ops| - 1]);
             && Continues(z, ops[|ops| - 1], i, got, got')
             && DeliveredTo(y, ops[..|ops| - 1], i)
                == DeliveredTo(y, ops[..b], i) + z.b.delivered[|z.b.delivered| - got..]
    ensures got' <= |After(y, ops).b.delivered|
    ensures DeliveredTo(y, ops, i)
         == DeliveredTo(y, ops[..b], i) + After(y, ops).b.delivered[|After(y, ops).b.delivered| - got'..]
  {
    hide Do, Allowed, Grown;
    var pre := ops[..|ops| - 1];
    var d, d' := After(y, pre).b.delivered, After(y, ops).b.delivered;
    var more := if Actor(ops[|ops| - 1]) == i then Grown(d, d') else [];
    assert DeliveredTo(y, ops, i) == DeliveredTo(y, pre, i) + more;
    assert DeliveredTo(y, ops[..b], i) + d[|d| - got..] + more == DeliveredTo(y, ops[..b], i) + (d[|d| - got..] + more);
  }

  lemma ReadFailed(ops: seq<Op>, i: nat, b: nat)
    requires ops != [] && b < |ops| - 1
    ensures var pre := ops[..|ops| - 1];
            (exists l :: b < l < |pre| && pre[l] == RTake(i, true)) || ops[|ops| - 1] == RTake(i, true)
            ==> exists l :: b < l < |ops| && ops[l] == RTake(i, true)
  {
    var pre := ops[..|ops| - 1];
    if l :| b < l < |pre| && pre[l] == RTake(i, true) {
      assert ops[l] == pre[l];
    }
  }

  /**
   piperead returns how many bytes it has got. It got all it asked for, or a copyout failed, or it emptied the pipe; and
   nothing only if the write end is closed.
   */
  lemma ReadReturns(y: Sys, ops: seq<Op>, i: nat) returns (b: nat)
    requires Fresh(y) && Legal(y, ops) && i < |After(y, ops).pc| && After(y, ops).pc[i].ReadWake?
    ensures var z := After(y, ops);
            var pc := z.pc[i];
            && HasRead(y, ops, i, b, pc.want, pc.got, pc.failed)
            && (pc.failed || pc.got == pc.want
                || (z.b.written == z.b.taken && (pc.got == 0 ==> !z.e.writeopen)))
  {
    b := ReaderCall(y, ops, i);
    RunKeeps(y, ops);
    hide HasRead, Legal, After, Fresh;
    StopsShort(After(y, ops), i);
  }

  lemma StoresMore(before: seq<byte>, src: seq<byte>, n: nat, n': nat)
    requires n <= n' <= |src|
    ensures before + src[..n] + src[n..n'] == before + src[..n']
  {
  }

  lemma FreshIsIdle(y: Sys, i: nat)
    requires Fresh(y) && i < |y.pc|
    ensures !IsWriter(y.pc[i]) && !IsReader(y.pc[i])
  {
  }

  lemma SameCount(z: Sys, op: Op)
    requires Allowed(z, op)
    ensures |Do(z, op).pc| == |z.pc|
  {
    hide Allowed;
  }

  lemma CallNow(y: Sys, ops: seq<Op>, i: nat)
    requires ops != [] && Legal(y, ops)
    ensures LastCall(y, ops, i, |ops| - 1)
  {
    hide Allowed;
  }

  lemma WriteBegins(y: Sys, ops: seq<Op>, i: nat)
    requires ops != [] && Legal(y, ops) && After(y, ops).b == After(y, ops[..|ops| - 1]).b
    ensures StoredBy(y, ops, i) == StoredBy(y, ops[..|ops| - 1], i)
    ensures DeliveredTo(y, ops, i) == DeliveredTo(y, ops[..|ops| - 1], i)
  {
    hide Allowed, Do;
  }

  /** pipeclose frees the pipe at most once, when both ends are closed, and nobody uses it after that. */
  lemma FreedOnce(y: Sys, ops: seq<Op>, i: nat)
    requires Fresh(y) && Legal(y, ops) && i < |After(y, ops).pc|
    ensures After(y, ops).e.frees <= 1
    ensures After(y, ops).e.frees == 1 ==>
              After(y, ops).pc[i].Free? && !After(y, ops).e.readopen && !After(y, ops).e.writeopen
  {
    RunKeeps(y, ops);
    var z := After(y, ops);
    assert PcOk(z.b, z.e, i, z.pc[i]);
  }

  // ----- nobody is stuck

  /** What keeps process i from going on: see Blocked; or the pipe's lock. */
  predicate Held(y: Sys, i: nat)
    requires i < |y.pc| == |y.k.procs|
  {
    Blocked(y.k, i) || (y.k.procs[i].phase.Out? && (y.k.procs[i].state != Running || y.k.lk.Some?))
  }

  /** What process i, in one of the three functions, does next. */
  ghost function NextOp(y: Sys, i: nat): Op
    requires i < |y.pc| == |y.k.procs|
  {
    if InProtocol(y.k.procs[i].phase) then Inner(NextStep(y.k, i))
    else
      match y.pc[i]
      case Free => RBegin(i, 0)
      case Writing(src, n) =>
        if n >= |src| then WEnd(i)
        else if !y.e.readopen then WForget(i)
        else if IsFull(y.b.ring) then WFull(i) else WPut(i)
      case FullWake(_, _) => WSleep(i)
      case LastWake(_, _) => WReturn(i)
      case Quitting(_, _) => WQuit(i)
      case Waiting(_) => if IsEmpty(y.b.ring) && y.e.writeopen then RSleep(i) else RGo(i)
      case Copying(want, got, failed) => if failed || got >= want || IsEmpty(y.b.ring) then REnd(i) else RTake(i, false)
      case ReadWake(_, _, _) => RReturn(i)
      case CloseStart(_) => CLock(i)
      case Closing(_) => CSet(i)
      case CloseWake(_) => CEnd(i)
  }

  /** On every run a process in pipewrite, piperead or pipeclose can take its next step unless it is held up. */
  lemma NobodyStuck(y: Sys, ops: seq<Op>, i: nat)
    requires Fresh(y) && Legal(y, ops) && i < |After(y, ops).pc| == |After(y, ops).k.procs|
    requires !After(y, ops).pc[i].Free? && !Held(After(y, ops), i)
    ensures Allowed(After(y, ops), NextOp(After(y, ops), i)) && Actor(NextOp(After(y, ops), i)) == i
  {
    RunKeeps(y, ops);
    var z := After(y, ops);
    if IsWriter(z.pc[i]) {
      var b := WriterCall(y, ops, i);
    }
    hide Legal, After, Fresh;
    GoesOnFrom(z, i);
  }

  lemma GoesOnFrom(z: Sys, i: nat)
    requires Invariant(z) && i < |z.pc| && !Held(z, i) && !z.pc[i].Free?
    requires z.pc[i].Writing? ==> z.pc[i].n <= |z.pc[i].src|
    ensures Allowed(z, NextOp(z, i)) && Actor(NextOp(z, i)) == i
  {
    RingSized(z.b);
    assert PhaseFits(z.pc[i], z.k.procs[i].phase);
    hide KernelOk, NoLost, EndsOk, CloserOk, PcOk, OwesOk, BytesOk, Allowed, NextOp;
    if InProtocol(z.k.procs[i].phase) {
      GoesOn(z.k, i);
      InnerNext(z, i);
    } else if IsWriter(z.pc[i]) {
      WriterNext(z, i);
    } else if IsReader(z.pc[i]) {
      ReaderNext(z, i);
    } else {
      CloserNext(z, i);
    }
  }

  lemma RingSized(b: Bytes)
    requires BytesOk(b)
    ensures |b.ring.data| == PIPESIZE
  {
  }

  lemma InnerNext(z: Sys, i: nat)
    requires i < |z.pc| == |z.k.procs| && |z.b.ring.data| == PIPESIZE && InProtocol(z.k.procs[i].phase)
    requires !z.k.procs[i].phase.LeaveLocked? && !z.k.procs[i].phase.Leaving?
    requires Enabled(z.k, NextStep(z.k, i)) && NextStep(z.k, i).i == i
    ensures Allowed(z, NextOp(z, i)) && Actor(NextOp(z, i)) == i
  {
    hide Enabled;
  }

  lemma WriterNext(z: Sys, i: nat)
    requires i < |z.pc| == |z.k.procs| && |z.b.ring.data| == PIPESIZE && !InProtocol(z.k.procs[i].phase)
    requires IsWriter(z.pc[i]) && PhaseFits(z.pc[i], z.k.procs[i].phase)
    requires z.pc[i].Writing? ==> z.pc[i].n <= |z.pc[i].src|
    ensures Allowed(z, NextOp(z, i)) && Actor(NextOp(z, i)) == i
  {
    hide IsFull, IsEmpty, Unused, Woken;
  }

  lemma ReaderNext(z: Sys, i: nat)
    requires i < |z.pc| == |z.k.procs| && |z.b.ring.data| == PIPESIZE && !InProtocol(z.k.procs[i].phase)
    requires IsReader(z.pc[i]) && PhaseFits(z.pc[i], z.k.procs[i].phase)
    ensures Allowed(z, NextOp(z, i)) && Actor(NextOp(z, i)) == i
  {
    hide IsFull, IsEmpty, Unused, Woken;
  }

  lemma CloserNext(z: Sys, i: nat)
    requires i < |z.pc| == |z.k.procs| && |z.b.ring.data| == PIPESIZE && !InProtocol(z.k.procs[i].phase)
    requires PhaseFits(z.pc[i], z.k.procs[i].phase) && !Held(z, i)
    requires z.pc[i].CloseStart? || z.pc[i].Closing? || z.pc[i].CloseWake?
    ensures Allowed(z, NextOp(z, i)) && Actor(NextOp(z, i)) == i
  {
    hide IsFull, IsEmpty, Unused, Woken;
  }

  /** And it has no choice what to do next, but for what others decide: whether a copy fails, whether it is killed. */
  lemma NextIsForced(y: Sys, ops: seq<Op>, op: Op)
    requires Fresh(y) && Legal(y, ops) && Allowed(After(y, ops), op) && !op.Inner? && !After(y, ops).pc[op.i].Free?
    ensures var z := After(y, ops);
            var pc := z.pc[op.i];
            || op == NextOp(z, op.i)
            || (op.WForget? && pc.Writing? && pc.n < |pc.src|)                                        // killed
            || (op.WEnd? && pc.Writing? && pc.n < |pc.src| && z.e.readopen && !IsFull(z.b.ring))      // copyin failed
            || (op.RQuit? && pc.Waiting? && IsEmpty(z.b.ring) && z.e.writeopen)                       // killed
            || (op == RTake(op.i, true) && NextOp(z, op.i) == RTake(op.i, false))                     // copyout fails
  {
    RunKeeps(y, ops);
    hide Legal, After, Fresh;
    ForcedFrom(After(y, ops), op);
  }

  lemma ForcedFrom(z: Sys, op: Op)
    requires Invariant(z) && Allowed(z, op) && !op.Inner? && !z.pc[op.i].Free?
    ensures var pc := z.pc[op.i];
            || op == NextOp(z, op.i)
            || (op.WForget? && pc.Writing? && pc.n < |pc.src|)
            || (op.WEnd? && pc.Writing? && pc.n < |pc.src| && z.e.readopen && !IsFull(z.b.ring))
            || (op.RQuit? && pc.Waiting? && IsEmpty(z.b.ring) && z.e.writeopen)
            || (op == RTake(op.i, true) && NextOp(z, op.i) == RTake(op.i, false))
  {
    hide KernelOk, NoLost, BytesOk, EndsOk, CloserOk, PcOk, OwesOk, IsFull, IsEmpty, Unused;
    assert PhaseFits(z.pc[op.i], z.k.procs[op.i].phase);
  }

  // ----- nobody keeps the pipe's lock

  /** How far a process that holds the lock is from letting go of it, in stores, loads and calls. */
  function CallsLeft(pc: Pc, ph: Phase<Chan>): int {
    match pc
    case Writing(src, n) => if ph.In? then |src| - n + 3 else 0
    case Waiting(want) => if ph.In? then want + 5 else 0
    case Copying(want, got, failed) => if failed then 2 else want - got + 3
    case Closing(_) => 2
    case Free => 0
    case CloseStart(_) => 0
    case _ => 1
  }

  function Left(y: Sys, i: nat): (int, int)
    requires i < |y.pc| == |y.k.procs|
  {
    (CallsLeft(y.pc[i], y.k.procs[i].phase), PhaseLeft(y.k.procs[i].phase, |y.pc|))
  }

  /**
   On every run, each step that a process makes while it holds the lock brings it closer to letting go of it, be it to
   return or to sleep.
   */
  lemma LetsGo(y: Sys, ops: seq<Op>, op: Op)
    requires Fresh(y) && Legal(y, ops) && Allowed(After(y, ops), op) && (op.Inner? ==> IsProtocol(op.s))
    requires var z, i := After(y, ops), Actor(op);
             i < |z.k.procs| && HoldsLk(z.k.procs[i].phase) && HoldsLk(Do(z, op).k.procs[i].phase)
    ensures var z, i := After(y, ops), Actor(op);
            i < |z.pc| == |z.k.procs| && Less(Left(Do(z, op), i), Left(z, i))
  {
    RunKeeps(y, ops);
    var z, i := After(y, ops), Actor(op);
    if IsWriter(z.pc[i]) {
      var b := WriterCall(y, ops, i);
    }
    hide Legal, After, Fresh;
    StepLetsGo(z, op);
  }

  /** What others do meanwhile does not take it further away. */
  lemma LeftKept(z: Sys, op: Op, i: nat)
    requires Allowed(z, op) && i < |z.pc| && i != Actor(op)
    ensures Left(Do(z, op), i) == Left(z, i)
  {
    hide Allowed, Do;
    OtherPhase(z, op, i);
  }

  lemma StepLetsGo(z: Sys, op: Op)
    requires Invariant(z) && Allowed(z, op) && (op.Inner? ==> IsProtocol(op.s))
    requires IsWriter(z.pc[Actor(op)]) ==> z.pc[Actor(op)].n <= |z.pc[Actor(op)].src|
    requires HoldsLk(z.k.procs[Actor(op)].phase) && HoldsLk(Do(z, op).k.procs[Actor(op)].phase)
    ensures Less(Left(Do(z, op), Actor(op)), Left(z, Actor(op)))
  {
    var i := Actor(op);
    StepNoLost(z, op);
    assert PhaseFits(z.pc[i], z.k.procs[i].phase) && PcOk(z.b, z.e, i, z.pc[i]);
    PhaseLeftBound(z.k, i);
    PhaseLeftBound(Do(z, op).k, i);
    if op.Inner? {
      InnerCalls(z, op.s);
    } else {
      OuterCalls(z, op);
    }
    hide Invariant, Allowed, Do, PhaseLeft, CallsLeft, PcOk, PhaseFits;
  }

  lemma InnerCalls(z: Sys, s: Step<Chan>)
    requires KernelOk(z.k) && Allowed(z, Inner(s)) && IsProtocol(s) && PhaseFits(z.pc[s.i], z.k.procs[s.i].phase)
    requires PcOk(z.b, z.e, s.i, z.pc[s.i]) && (IsWriter(z.pc[s.i]) ==> z.pc[s.i].n <= |z.pc[s.i].src|)
    requires HoldsLk(z.k.procs[s.i].phase) && HoldsLk(Do(z, Inner(s)).k.procs[s.i].phase)
    ensures var z' := Do(z, Inner(s));
            && 0 <= CallsLeft(z'.pc[s.i], z'.k.procs[s.i].phase) == CallsLeft(z.pc[s.i], z.k.procs[s.i].phase)
            && PhaseLeft(z'.k.procs[s.i].phase, |z.pc|) < PhaseLeft(z.k.procs[s.i].phase, |z.pc|)
  {
    ProtocolLetsGo(z.k, s);
    hide KernelOk, PhaseLeft, Woken, IsFull, IsEmpty;
  }

  lemma OuterCalls(z: Sys, op: Op)
    requires Allowed(z, op) && !op.Inner? && PhaseFits(z.pc[op.i], z.k.procs[op.i].phase)
    requires PcOk(z.b, z.e, op.i, z.pc[op.i]) && (IsWriter(z.pc[op.i]) ==> z.pc[op.i].n <= |z.pc[op.i].src|)
    requires HoldsLk(z.k.procs[op.i].phase) && HoldsLk(Do(z, op).k.procs[op.i].phase)
    ensures var z', i := Do(z, op), op.i;
            0 <= CallsLeft(z'.pc[i], z'.k.procs[i].phase) < CallsLeft(z.pc[i], z.k.procs[i].phase)
  {
    hide Woken, IsFull, IsEmpty, BytesAfter, EndsAfter, DroppedAfter, Unused;
  }

  // ----- a killed writer

  predicate ReaderWaits(y: Sys, j: nat) {
    j < |y.k.procs| && WaitsOn(y.k.procs[j]) == Some(NRead)
  }

  /** Some reader sleeps although there is something to read. */
  ghost predicate Stranded(y: Sys) {
    exists j :: ReaderWaits(y, j) && !IsEmpty(y.b.ring)
  }

  /**
   pipewrite's early return leaves a reader asleep on a non-empty pipe exactly if the writer has
   stored bytes since its last wakeup and a reader is asleep.
   */
  lemma KilledWriterStrands(y: Sys, ops: seq<Op>, i: nat)
    requires Fresh(y) && Legal(y, ops) && !After(y, ops).dropped && Allowed(After(y, ops), WForget(i))
    requires Allowed(Do(After(y, ops), WForget(i)), WQuit(i))
    ensures var z := After(y, ops);
            Stranded(Do(Do(z, WForget(i)), WQuit(i))) <==>
            NRead in z.k.procs[i].phase.owes && exists j :: ReaderWaits(z, j)
  {
    RunKeeps(y, ops);
    var z := After(y, ops);
    var z' := Do(Do(z, WForget(i)), WQuit(i));
    hide Invariant, Legal, After;
    EarlyReturn(z, i);
    forall j: nat
      ensures ReaderWaits(z', j) <==> ReaderWaits(z, j)
      ensures ReaderWaits(z, j) ==> (IsEmpty(z.b.ring) <==> NRead !in z.k.procs[i].phase.owes)
    {
      WaitsSame(z, i, j);
      if ReaderWaits(z, j) {
        ReaderHasReason(z, i, j);
      }
    }
    hide Do, Allowed;
  }

  lemma EarlyReturn(z: Sys, i: nat)
    requires Allowed(z, WForget(i)) && Allowed(Do(z, WForget(i)), WQuit(i))
    ensures Do(Do(z, WForget(i)), WQuit(i)).b == z.b && i < |z.pc| == |z.k.procs| && z.k.procs[i].phase.In?
            && z.pc[i].Writing?
  {
  }

  lemma ReaderHasReason(z: Sys, i: nat, j: nat)
    requires Invariant(z) && !z.dropped && i < |z.pc| && z.k.procs[i].phase.In? && z.pc[i].Writing? && ReaderWaits(z, j)
    ensures IsEmpty(z.b.ring) <==> NRead !in z.k.procs[i].phase.owes
  {
    hide KernelOk, BytesOk, IsEmpty, IsFull;
    assert OwesOk(z, i);
    if NRead !in z.k.procs[i].phase.owes {
      HolderPays(z, i);
      assert NRead in Good(z);
      assert PhaseFits(z.pc[j], z.k.procs[j].phase) && PcOk(z.b, z.e, j, z.pc[j]);
    }
  }

  lemma WaitsSame(z: Sys, i: nat, j: nat)
    requires Allowed(z, WForget(i)) && Allowed(Do(z, WForget(i)), WQuit(i))
    ensures ReaderWaits(Do(Do(z, WForget(i)), WQuit(i)), j) <==> ReaderWaits(z, j)
  {
  }

  lemma HolderPays(z: Sys, i: nat)
    requires KernelOk(z.k) && i < |z.k.procs| && z.k.procs[i].phase.In? && NRead !in z.k.procs[i].phase.owes
    ensures forall j :: ReaderWaits(z, j) ==> !Pending(z.k, j, NRead)
  {
    assert HoldsLk(z.k.procs[i].phase);
  }

  lemma LegalSnoc(y: Sys, ops: seq<Op>, op: Op)
    requires Legal(y, ops) && Allowed(After(y, ops), op)
    ensures Legal(y, ops + [op]) && After(y, ops + [op]) == Do(After(y, ops), op)
  {
    assert (ops + [op])[..|ops|] == ops;
  }

  /** A reader, process 0, and a writer, process 1, of an open pipe. */
  ghost function Two(p0: Proc<Chan>, p1: Proc<Chan>, lk: Option<nat>, pc0: Pc, pc1: Pc, b: Bytes, dropped: bool): Sys {
    Sys(Kernel([p0, p1], lk), [pc0, pc1], b, Ends(true, true, Open, Open, 0), dropped)
  }

  ghost function At(ph: Phase<Chan>): Proc<Chan> {
    Proc(ph, Running, None)
  }

  ghost const ASLEEP: Proc<Chan> := Proc(Asleep(NRead), Sleeping, Some(NRead))

  function Zeros(): (z: seq<byte>)
    ensures |z| == PIPESIZE
  {
    seq(PIPESIZE, _ => 0)
  }

  ghost function NoBytes(): Bytes {
    Bytes(Ring(Zeros(), 0, 0), [], [], [], false)
  }

  ghost function OneByte(): Bytes {
    Bytes(Ring(Zeros()[0 := 7], 0, 1), [7], [], [], false)
  }

  /** The reader finds nothing and goes to sleep. */
  lemma ReaderGoesDown(y: Sys) returns (ops: seq<Op>)
    requires y == Two(At(Out), At(Out), None, Free, Free, NoBytes(), false)
    ensures Legal(y, ops) && After(y, ops) == Two(ASLEEP, At(Out), None, Waiting(1), Free, NoBytes(), false)
  {
    hide Do, Allowed;
    ops := [];
    ReaderEnters();
    ops := Next(y, ops, RBegin(0, 1));
    ops := Next(y, ops, RSleep(0));
    ReaderFalls();
    ops := Next(y, ops, Inner(LockSelf(0)));
    ops := Next(y, ops, Inner(Fall(0)));
    ReaderDozes();
    ops := Next(y, ops, Inner(Doze(0)));
    ops := Next(y, ops, Inner(Switch(0)));
  }

  ghost function Reader(p: Proc<Chan>, lk: Option<nat>, pc: Pc): Sys {
    Two(p, At(Out), lk, pc, Free, NoBytes(), false)
  }

  lemma ReaderEnters()
    ensures var z := Reader(At(Out), None, Free);
            && Allowed(z, RBegin(0, 1)) && Allowed(Do(z, RBegin(0, 1)), RSleep(0))
            && Do(Do(z, RBegin(0, 1)), RSleep(0)) == Reader(At(Enter(NRead)), Some(0), Waiting(1))
  {
    ReaderStep(At(Out), None, Free, RBegin(0, 1), At(In({}, {})), Some(0), Waiting(1));
    ReaderStep(At(In({}, {})), Some(0), Waiting(1), RSleep(0), At(Enter(NRead)), Some(0), Waiting(1));
    hide Do, Allowed;
  }

  lemma ReaderFalls()
    ensures var z := Reader(At(Enter(NRead)), Some(0), Waiting(1));
            && Allowed(z, Inner(LockSelf(0))) && Allowed(Do(z, Inner(LockSelf(0))), Inner(Fall(0)))
            && Do(Do(z, Inner(LockSelf(0))), Inner(Fall(0))) == Reader(At(Falling(NRead)), None, Waiting(1))
  {
    ReaderStep(At(Enter(NRead)), Some(0), Waiting(1), Inner(LockSelf(0)), At(Committed(NRead)), Some(0), Waiting(1));
    ReaderStep(At(Committed(NRead)), Some(0), Waiting(1), Inner(Fall(0)), At(Falling(NRead)), None, Waiting(1));
    hide Do, Allowed;
  }

  lemma ReaderDozes()
    ensures var z := Reader(At(Falling(NRead)), None, Waiting(1));
            && Allowed(z, Inner(Doze(0))) && Allowed(Do(z, Inner(Doze(0))), Inner(Switch(0)))
            && Do(Do(z, Inner(Doze(0))), Inner(Switch(0))) == Reader(ASLEEP, None, Waiting(1))
  {
    ReaderStep(At(Falling(NRead)), None, Waiting(1), Inner(Doze(0)), ASLEEP.(phase := Down(NRead)), None, Waiting(1));
    ReaderStep(ASLEEP.(phase := Down(NRead)), None, Waiting(1), Inner(Switch(0)), ASLEEP, None, Waiting(1));
    hide Do, Allowed;
  }

  lemma ReaderStep(p: Proc<Chan>, lk: Option<nat>, pc: Pc, op: Op, p': Proc<Chan>, lk': Option<nat>, pc': Pc)
    requires var z := Two(p, At(Out), lk, pc, Free, NoBytes(), false);
             && Actor(op) == 0 && Pre(z, op) == None && Post(z, op).Some? && Post(z, op).value.i == 0
                && !Post(z, op).value.WakeNext?
             && !op.RTake? && !op.WPut? && !op.WForget? && !op.CBegin? && !op.CSet? && !op.CEnd?
             && Enabled(z.k, Post(z, op).value) && Guard(z, op, pc) && PcAfter(z, op, pc) == pc'
             && Apply(z.k, Post(z, op).value).procs[0] == p' && Apply(z.k, Post(z, op).value).lk == lk'
    ensures var z := Two(p, At(Out), lk, pc, Free, NoBytes(), false);
            Allowed(z, op) && Do(z, op) == Two(p', At(Out), lk', pc', Free, NoBytes(), false)
  {
    var z := Two(p, At(Out), lk, pc, Free, NoBytes(), false);
    assert Apply(z.k, Post(z, op).value).procs == [p', At(Out)];
    hide Guard, PcAfter, Apply, Enabled;
    assert z.pc[0 := pc'] == [pc', Free];
  }

  lemma WriterPuts(y: Sys, ops: seq<Op>) returns (ops': seq<Op>)
    requires Legal(y, ops) && After(y, ops) == Two(ASLEEP, At(Out), None, Waiting(1), Free, NoBytes(), false)
    ensures Legal(y, ops') && After(y, ops') == Two(ASLEEP, At(In({NRead}, {})), Some(1), Waiting(1),
                                                    Writing([7, 7], 1), OneByte(), false)
  {
    var src: seq<byte> := [7, 7];
    var z := After(y, ops);
    WriterBegins(src);
    ops' := Next(y, ops, WBegin(1, src));
    WriterStores(src);
    ops' := Next(y, ops', WPut(1));
  }

  lemma WriterBegins(src: seq<byte>)
    ensures var z := Two(ASLEEP, At(Out), None, Waiting(1), Free, NoBytes(), false);
            && Allowed(z, WBegin(1, src))
            && Do(z, WBegin(1, src)) == Two(ASLEEP, At(In({}, {})), Some(1), Waiting(1), Writing(src, 0), NoBytes(),
                                            false)
  {
    var z := Two(ASLEEP, At(Out), None, Waiting(1), Free, NoBytes(), false);
    var z' := Do(z, WBegin(1, src));
    assert z'.pc == [Waiting(1), Writing(src, 0)];
    assert z'.k.procs == [ASLEEP, At(In({}, {}))];
  }

  lemma WriterStores(src: seq<byte>)
    requires src == [7, 7]
    ensures var z := Two(ASLEEP, At(In({}, {})), Some(1), Waiting(1), Writing(src, 0), NoBytes(), false);
            && Allowed(z, WPut(1))
            && Do(z, WPut(1)) == Two(ASLEEP, At(In({NRead}, {})), Some(1), Waiting(1), Writing(src, 1), OneByte(),
                                     false)
  {
    var z := Two(ASLEEP, At(In({}, {})), Some(1), Waiting(1), Writing(src, 0), NoBytes(), false);
    var z' := Do(z, WPut(1));
    assert z'.pc == [Waiting(1), Writing(src, 1)];
    assert {} + {NRead} == {NRead};
    assert z'.k.procs == [ASLEEP, At(In({NRead}, {}))];
    assert z'.b.written == [7];
  }

  lemma WriterLeaves()
    ensures var z := Two(ASLEEP, At(In({NRead}, {})), Some(1), Waiting(1), Writing([7, 7], 1), OneByte(), false);
            && Allowed(z, WForget(1)) && Allowed(Do(z, WForget(1)), WQuit(1))
            && Do(Do(z, WForget(1)), WQuit(1)) == Two(ASLEEP, At(Out), None, Waiting(1), Free, OneByte(), true)
  {
    var z := Two(ASLEEP, At(In({NRead}, {})), Some(1), Waiting(1), Writing([7, 7], 1), OneByte(), false);
    var z1 := Do(z, WForget(1));
    assert z1.pc == [Waiting(1), Quitting([7, 7], 1)];
    assert z1.k.procs == [ASLEEP, At(In({}, {}))];
    var z2 := Do(z1, WQuit(1));
    assert z2.pc == [Waiting(1), Free];
    assert z2.k.procs == [ASLEEP, At(Out)];
  }

  lemma Next(y: Sys, ops: seq<Op>, op: Op) returns (ops': seq<Op>)
    requires Legal(y, ops) && Allowed(After(y, ops), op)
    ensures Legal(y, ops') && After(y, ops') == Do(After(y, ops), op)
  {
    LegalSnoc(y, ops, op);
    ops' := ops + [op];
  }

  /**
   It happens: a reader sleeps, a writer stores one of two bytes and is killed; the byte is there, the lock is free, and
   the reader sleeps on.
   */
  lemma StrandedRun() returns (y: Sys, ops: seq<Op>)
    ensures Fresh(y) && Legal(y, ops) && After(y, ops).k.lk == None && Stranded(After(y, ops))
            && After(y, ops).e.writeopen
  {
    hide Do, Allowed, Legal;
    y := Two(At(Out), At(Out), None, Free, Free, NoBytes(), false);
    ops := ReaderGoesDown(y);
    ops := WriterPuts(y, ops);
    WriterLeaves();
    ops := Next(y, ops, WForget(1));
    ops := Next(y, ops, WQuit(1));
    assert ReaderWaits(After(y, ops), 0);
  }
}
