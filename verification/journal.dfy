/**
 The journal as a concurrent, crashing system: any number of processes run
 file-system operations through the buffer cache of kernel/bio.c and the log of
 kernel/log.c, one of them commits, power may fail between any two block
 writes, and recovery itself may be interrupted any number of times.

 Each Step is one critical section or one block write of the kernel code. A
 step's effect is a function; a run is any sequence of enabled steps. The
 history fields (events, committed, nextId) record what was logged and are read
 by no step's guard.
 */
module Journal {
  import opened Blocks
  import opened Common
  import opened LogFormat

  type Proc = nat

  /** struct buf. users are the processes between bget and the end of brelse. */
  datatype Buf = Buf(data: Block, valid: bool, refcnt: int, owner: Option<Proc>, users: set<Proc>, dirty: bool)

  /** A system call between begin_op and end_op, with the blocks it has logged so far. */
  datatype Op = Op(id: nat, logged: set<nat>)

  /** One log_write: the operation, the block and the contents it logged. */
  datatype Event = Event(op: nat, bno: nat, data: Block)

  datatype Phase =
    | Idle                       // no commit in progress
    | Logging(tail: nat)         // in write_log
    | Installing(tail: nat)      // header written; in install_trans(0)
    | Cleared                    // header erased; about to reset committing
    | Booting                    // power has failed; nothing read yet
    | Recovering(tail: nat)      // in install_trans(1)

  datatype State = State(
    disk: Disk, cache: map<nat, Buf>,
    lh: seq<nat>, outstanding: int,
    committing: bool, ops: map<Proc, Op>,
    phase: Phase, nextId: nat, events: seq<Event>,
    committed: nat)

  /** The device, its contents when the system first booted, and the clients' block budget. */
  datatype Config = Config(l: Layout, base: Disk, opBlocks: nat) {
    ghost predicate Valid() {
      && l.Valid()
      && l.nblocks < WORD_LIMIT
      && |base| == l.nblocks
      && HeaderOk(base[l.start])
      && DecodeHeader(base[l.start]) == []
    }
  }

  datatype Step =
    | BeginOp(p: Proc)
    | Bget(p: Proc, b: nat, junk: Block)
    | Lock(p: Proc, b: nat)
    | Load(p: Proc, b: nat)
    | Modify(p: Proc, b: nat, data: Block)
    | LogWrite(p: Proc, b: nat)
    | Unlock(p: Proc, b: nat)
    | Drop(p: Proc, b: nat)
    | Evict(b: nat)
    | EndOp(p: Proc)
    | CopyToLog
    | WriteHead
    | InstallBlock
    | ClearHead
    | Finish
    | Crash
    | ReadHead
    | RecoverBlock
    | RecoverClear

  // ----- guards

  predicate Running(s: State) {
    !s.phase.Booting? && !s.phase.Recovering?
  }

  predicate OwnedBy(s: State, p: Proc, b: nat) {
    b in s.cache && s.cache[b].owner == Some(p)
  }

  /** log_write's two size panics (kernel/log.c:220). */
  predicate TooBig(c: Config, s: State) {
    |s.lh| >= LOGSIZE || |s.lh| >= c.l.size - 1
  }

  /** The committer can lock block b. */
  predicate Lockable(s: State, b: nat) {
    b in s.cache ==> s.cache[b].owner == None
  }

  predicate Admits(h: seq<nat>, outstanding: int) {
    |h| + (outstanding + 1) * MAXOPBLOCKS <= LOGSIZE
  }

  predicate CanBegin(s: State, p: Proc) {
    Running(s) && p !in s.ops && !s.committing && Admits(s.lh, s.outstanding)
  }

  predicate CanGet(c: Config, s: State, p: Proc, b: nat) {
    Running(s) && c.l.IsHome(b) && (b in s.cache ==> p !in s.cache[b].users)
  }

  predicate CanLock(s: State, p: Proc, b: nat) {
    b in s.cache && p in s.cache[b].users && s.cache[b].owner == None
  }

  predicate CanLoad(c: Config, s: State, p: Proc, b: nat) {
    OwnedBy(s, p, b) && !s.cache[b].valid && b < |s.disk|
  }

  predicate CanModify(s: State, p: Proc, b: nat) {
    OwnedBy(s, p, b) && s.cache[b].valid && p in s.ops
  }

  predicate CanLogWrite(c: Config, s: State, p: Proc, b: nat) {
    CanModify(s, p, b) && !TooBig(c, s) && |s.ops[p].logged + {b}| <= c.opBlocks
  }

  predicate CanDrop(s: State, p: Proc, b: nat) {
    b in s.cache && p in s.cache[b].users && s.cache[b].owner != Some(p)
  }

  predicate CanEnd(s: State, p: Proc) {
    p in s.ops && forall b :: b in s.cache && s.cache[b].owner == Some(p) ==> !s.cache[b].dirty
  }

  /** The committer, or recovery, can process entry tail of the in-memory header. */
  predicate CanCopy(c: Config, s: State, tail: nat) {
    tail < |s.lh| && s.lh[tail] < |s.disk| && c.l.start + 1 + tail < |s.disk| && Lockable(s, s.lh[tail])
  }

  predicate CanWriteHead(c: Config, s: State) {
    s.phase == Logging(|s.lh|) && Encodable(s.lh) && c.l.start < |s.disk|
  }

  predicate Encodable(h: seq<nat>) {
    |h| <= LOGSIZE && forall i :: 0 <= i < |h| ==> h[i] < WORD_LIMIT
  }

  predicate Enabled(c: Config, s: State, t: Step) {
    match t
    case BeginOp(p) => CanBegin(s, p)
    case Bget(p, b, _) => CanGet(c, s, p, b)
    case Lock(p, b) => CanLock(s, p, b)
    case Load(p, b) => CanLoad(c, s, p, b)
    case Modify(p, b, _) => CanModify(s, p, b)
    case LogWrite(p, b) => CanLogWrite(c, s, p, b)
    case Unlock(p, b) => OwnedBy(s, p, b) && !s.cache[b].dirty
    case Drop(p, b) => CanDrop(s, p, b)
    case Evict(b) => b in s.cache && s.cache[b].refcnt == 0
    case EndOp(p) => CanEnd(s, p)
    case CopyToLog => s.phase.Logging? && CanCopy(c, s, s.phase.tail)
    case WriteHead => CanWriteHead(c, s)
    case InstallBlock => s.phase.Installing? && CanCopy(c, s, s.phase.tail)
    case ClearHead => s.phase == Installing(|s.lh|) && c.l.start < |s.disk|
    case Finish => s.phase.Cleared?
    case Crash => true
    case ReadHead => s.phase.Booting? && c.l.start < |s.disk| && HeaderOk(s.disk[c.l.start])
    case RecoverBlock => s.phase.Recovering? && CanCopy(c, s, s.phase.tail)
    case RecoverClear => s.phase == Recovering(|s.lh|) && c.l.start < |s.disk|
  }

  // ----- effects

  /** What bread returns for block b: the cached copy if there is a valid one, else the disk's. */
  function Bread(s: State, b: nat): Block
    requires b < |s.disk|
  {
    if b in s.cache && s.cache[b].valid then s.cache[b].data else s.disk[b]
  }

  function DoBegin(s: State, p: Proc): State {
    s.(ops := s.ops[p := Op(s.nextId, {})], outstanding := s.outstanding + 1, nextId := s.nextId + 1)
  }

  function SetBuf(s: State, b: nat, u: Buf): State {
    s.(cache := s.cache[b := u])
  }

  /** bget: another reference to a cached block, or a recycled buffer whose contents are not valid. */
  function DoGet(s: State, p: Proc, b: nat, junk: Block): State {
    if b in s.cache then
      var u := s.cache[b];
      SetBuf(s, b, u.(refcnt := u.refcnt + 1, users := u.users + {p}))
    else
      SetBuf(s, b, Buf(junk, false, 1, None, {p}, false))
  }

  function DoLogWrite(s: State, p: Proc, b: nat): State
    requires CanModify(s, p, b)
  {
    var u := s.cache[b];
    var refcnt := if b in s.lh then u.refcnt else u.refcnt + 1;
    SetBuf(s, b, u.(refcnt := refcnt, dirty := false)).(
    lh := Absorb(s.lh, b),
    ops := s.ops[p := s.ops[p].(logged := s.ops[p].logged + {b})],
    events := s.events + [Event(s.ops[p].id, b, u.data)])
  }

  function DoEnd(s: State, p: Proc): State {
    var r := s.(ops := s.ops - {p}, outstanding := s.outstanding - 1);
    if r.outstanding == 0 then
      r.(committing := true, phase := if |s.lh| > 0 then Logging(0) else Cleared)
    else r
  }

  function DoCopyToLog(c: Config, s: State): State
    requires s.phase.Logging? && CanCopy(c, s, s.phase.tail)
  {
    var tail := s.phase.tail;
    s.(disk := s.disk[c.l.start + 1 + tail := Bread(s, s.lh[tail])], phase := Logging(tail + 1))
  }

  function PutHeader(c: Config, d: Disk, h: seq<nat>): Disk
    requires c.l.start < |d| && Encodable(h)
  {
    d[c.l.start := EncodeHeader(d[c.l.start], h)]
  }

  function DoWriteHead(c: Config, s: State): State
    requires CanWriteHead(c, s)
  {
    s.(disk := PutHeader(c, s.disk, s.lh), phase := Installing(0), committed := |s.events|)
  }

  /** bread, memmove, bwrite, bunpin and brelse of one home block. */
  function DoInstallBlock(c: Config, s: State): State
    requires s.phase.Installing? && CanCopy(c, s, s.phase.tail)
  {
    var tail := s.phase.tail;
    var b := s.lh[tail];
    var data := s.disk[c.l.start + 1 + tail];
    var u := if b in s.cache then s.cache[b] else Buf(data, true, 0, None, {}, false);
    SetBuf(s, b, u.(data := data, valid := true, refcnt := u.refcnt - 1)).(
    disk := s.disk[b := data],
    phase := Installing(tail + 1))
  }

  /** Power fails: memory is lost, and so is every write that was not committed. */
  function DoCrash(s: State): State {
    s.(cache := map[], lh := [], outstanding := 0, committing := false, ops := map[], phase := Booting,
       events := if s.committed <= |s.events| then s.events[..s.committed] else s.events)
  }

  function DoRecoverBlock(c: Config, s: State): State
    requires s.phase.Recovering? && CanCopy(c, s, s.phase.tail)
  {
    var tail := s.phase.tail;
    s.(disk := s.disk[s.lh[tail] := s.disk[c.l.start + 1 + tail]], phase := Recovering(tail + 1))
  }

  function DoClear(c: Config, s: State, next: Phase): State
    requires c.l.start < |s.disk|
  {
    s.(lh := [], disk := PutHeader(c, s.disk, []), phase := next)
  }

  function Apply(c: Config, s: State, t: Step): State
    requires Enabled(c, s, t)
  {
    match t
    case BeginOp(p) => DoBegin(s, p)
    case Bget(p, b, junk) => DoGet(s, p, b, junk)
    case Lock(p, b) => SetBuf(s, b, s.cache[b].(owner := Some(p)))
    case Load(p, b) => SetBuf(s, b, s.cache[b].(valid := true, data := s.disk[b]))
    case Modify(p, b, data) => SetBuf(s, b, s.cache[b].(data := data, dirty := true))
    case LogWrite(p, b) => DoLogWrite(s, p, b)
    case Unlock(p, b) => SetBuf(s, b, s.cache[b].(owner := None))
    case Drop(p, b) => SetBuf(s, b, s.cache[b].(refcnt := s.cache[b].refcnt - 1, users := s.cache[b].users - {p}))
    case Evict(b) => s.(cache := s.cache - {b})
    case EndOp(p) => DoEnd(s, p)
    case CopyToLog => DoCopyToLog(c, s)
    case WriteHead => DoWriteHead(c, s)
    case InstallBlock => DoInstallBlock(c, s)
    case ClearHead => DoClear(c, s, Cleared)
    case Finish => s.(committing := false, phase := Idle)
    case Crash => DoCrash(s)
    case ReadHead => s.(lh := DecodeHeader(s.disk[c.l.start]), phase := Recovering(0))
    case RecoverBlock => DoRecoverBlock(c, s)
    case RecoverClear => DoClear(c, s, Idle)
  }

  // ----- runs

  function Init(c: Config): State {
    State(c.base, map[], [], 0, false, map[], Idle, 0, [], 0)
  }

  predicate Legal(c: Config, steps: seq<Step>)
    decreases |steps|, 0
  {
    steps == [] || (var k := |steps| - 1;
                    Legal(c, steps[..k]) && Enabled(c, After(c, steps[..k]), steps[k]))
  }

  /** The state a legal run reaches. */
  function After(c: Config, steps: seq<Step>): State
    requires Legal(c, steps)
    decreases |steps|, 1
  {
    if steps == [] then Init(c)
    else
      var k := |steps| - 1;
      Apply(c, After(c, steps[..k]), steps[k])
  }

  // ----- what the history says the home blocks hold

  ghost predicate EventsOk(c: Config, ev: seq<Event>) {
    forall i :: 0 <= i < |ev| ==> c.l.IsHome(ev[i].bno)
  }

  /** The device's blocks after applying logged writes in order to the first boot's contents. */
  ghost function Replay(c: Config, ev: seq<Event>): (d: Disk)
    requires c.Valid() && EventsOk(c, ev)
    ensures |d| == c.l.nblocks
  {
    if ev == [] then c.base
    else
      var k := |ev| - 1;
      Replay(c, ev[..k])[ev[k].bno := ev[k].data]
  }

  lemma ReplayAppend(c: Config, ev: seq<Event>, e: Event)
    requires c.Valid() && EventsOk(c, ev) && c.l.IsHome(e.bno)
    ensures EventsOk(c, ev + [e])
    ensures Replay(c, ev + [e]) == Replay(c, ev)[e.bno := e.data]
  {
    assert (ev + [e])[..|ev|] == ev;
  }

  // ----- the invariant

  /** Blocks that hold the log's pin: logged and not yet installed. */
  predicate Pinned(s: State, b: nat) {
    match s.phase
    case Booting => false
    case Recovering(_) => false
    case Installing(tail) => Pending(s.lh, tail, b)
    case _ => b in s.lh
  }

  /** Entry b of header h is at position t or later. */
  predicate Pending(h: seq<nat>, t: nat, b: nat) {
    exists i :: t <= i < |h| && h[i] == b
  }

  lemma PendingAll(h: seq<nat>)
    ensures forall b :: Pending(h, 0, b) <==> b in h
  {
  }

  lemma PendingNext(h: seq<nat>, t: nat, b: nat)
    requires t < |h|
    ensures Pending(h, t, b) <==> b == h[t] || Pending(h, t + 1, b)
  {
  }

  ghost predicate InvShape(c: Config, s: State)
    requires c.Valid()
  {
    && |s.disk| == c.l.nblocks
    && EventsOk(c, s.events)
    && s.committed <= |s.events|
    && c.l.ValidHeader(s.lh)
  }

  ghost predicate InvControl(c: Config, s: State)
    requires c.Valid()
  {
    && s.outstanding == |s.ops|
    && (s.committing <==> s.phase.Logging? || s.phase.Installing? || s.phase.Cleared?)
    && (!s.phase.Idle? ==> s.ops == map[])
    && (!Running(s) ==> s.cache == map[])
    && (s.phase.Logging? || s.phase.Installing? || s.phase.Recovering? ==> s.phase.tail <= |s.lh|)
    && (s.phase.Logging? || s.phase.Installing? ==> s.lh != [])
    && (s.phase.Cleared? || s.phase.Booting? ==> s.lh == [])
    && (s.phase.Idle? && s.ops == map[] ==> s.lh == [])
  }

  ghost predicate BufOk(c: Config, s: State, b: nat)
    requires c.Valid() && InvShape(c, s) && b in s.cache
  {
    var u := s.cache[b];
    && c.l.IsHome(b)
    && u.refcnt == |u.users| + (if Pinned(s, b) then 1 else 0)
    && (u.owner.Some? ==> u.owner.value in u.users)
    && (u.dirty ==> u.valid && u.owner.Some? && u.owner.value in s.ops)
    && (u.valid && !u.dirty ==> u.data == Replay(c, s.events)[b])
  }

  ghost predicate InvCache(c: Config, s: State)
    requires c.Valid() && InvShape(c, s)
  {
    && (forall b :: b in s.cache ==> BufOk(c, s, b))
    && (forall b :: Pinned(s, b) ==> b in s.cache && s.cache[b].valid)
  }

  /** The header on disk is the one the current phase expects. */
  ghost predicate HeaderIs(c: Config, s: State, h: seq<nat>)
    requires c.Valid() && InvShape(c, s)
  {
    HeaderOk(s.disk[c.l.start]) && DecodeHeader(s.disk[c.l.start]) == h
  }

  /** The first k log blocks hold the logged contents of h[..k]. */
  ghost predicate LogHolds(c: Config, s: State, h: seq<nat>, k: nat)
    requires c.Valid() && InvShape(c, s) && c.l.ValidHeader(h) && k <= |h|
  {
    forall i :: 0 <= i < k ==> s.disk[c.l.start + 1 + i] == Replay(c, s.events)[h[i]]
  }

  /** Home blocks that entries t, t+1, ... of h do not name are up to date on disk. */
  ghost predicate HomeHolds(c: Config, s: State, h: seq<nat>, t: nat)
    requires c.Valid() && InvShape(c, s)
  {
    forall b :: 0 <= b < |s.disk| && c.l.IsHome(b) && !Pending(h, t, b) ==> s.disk[b] == Replay(c, s.events)[b]
  }

  ghost predicate InvDisk(c: Config, s: State)
    requires c.Valid() && InvShape(c, s) && InvControl(c, s)
  {
    match s.phase
    case Idle => HeaderIs(c, s, []) && HomeHolds(c, s, s.lh, 0) && HomeDurable(c, s)
    case Logging(t) =>
      HeaderIs(c, s, []) && HomeHolds(c, s, s.lh, 0) && HomeDurable(c, s) && LogHolds(c, s, s.lh, t)
    case Installing(t) =>
      && HeaderIs(c, s, s.lh) && HomeHolds(c, s, s.lh, t) && LogHolds(c, s, s.lh, |s.lh|)
      && s.committed == |s.events|
    case Cleared => HeaderIs(c, s, []) && HomeHolds(c, s, [], 0) && s.committed == |s.events|
    case Booting =>
      && s.committed == |s.events|
      && HeaderOk(s.disk[c.l.start])
      && var h := DecodeHeader(s.disk[c.l.start]);
      c.l.ValidHeader(h) && HomeHolds(c, s, h, 0) && LogHolds(c, s, h, |h|)
    case Recovering(t) =>
      && HeaderIs(c, s, s.lh) && HomeHolds(c, s, s.lh, t) && LogHolds(c, s, s.lh, |s.lh|)
      && s.committed == |s.events|
  }

  /** Every home block on disk is as of the last commit, and uncommitted writes are all in the log. */
  ghost predicate HomeDurable(c: Config, s: State)
    requires c.Valid() && InvShape(c, s)
  {
    && SameHome(c.l, s.disk, Replay(c, s.events[..s.committed]))
    && forall j :: s.committed <= j < |s.events| ==> s.events[j].bno in s.lh
  }

  /** Operation identities: unique, and never split by the commit point. */
  ghost predicate InvIds(s: State) {
    && s.committed <= |s.events|
    && (forall p :: p in s.ops ==> s.ops[p].id < s.nextId)
    && (forall p, q :: p in s.ops && q in s.ops && p != q ==> s.ops[p].id != s.ops[q].id)
    && (forall i :: 0 <= i < |s.events| ==> s.events[i].op < s.nextId)
    && (forall p, i :: p in s.ops && 0 <= i < s.committed ==> s.events[i].op != s.ops[p].id)
    && (forall i, j :: 0 <= i < s.committed <= j < |s.events| ==> s.events[i].op != s.events[j].op)
  }

  ghost predicate Inv(c: Config, s: State)
    requires c.Valid()
  {
    InvShape(c, s) && InvControl(c, s) && InvCache(c, s) && InvDisk(c, s) && InvIds(s)
  }

  lemma InitInv(c: Config)
    requires c.Valid()
    ensures Inv(c, Init(c))
  {
  }

  // ----- every step keeps the invariant

  /** The parts of the invariant that do not look at buffers carry over between states that share them. */
  lemma FrameDisk(c: Config, s: State, r: State)
    requires c.Valid() && InvShape(c, s) && InvControl(c, s) && InvDisk(c, s)
    requires r.disk == s.disk && r.phase == s.phase && r.lh == s.lh
    requires r.events == s.events && r.committed == s.committed
    requires InvControl(c, r)
    ensures InvShape(c, r) && InvDisk(c, r)
  {
  }

  lemma FrameIds(s: State, r: State)
    requires InvIds(s) && r.ops == s.ops && r.events == s.events && r.committed == s.committed && r.nextId == s.nextId
    ensures InvIds(r)
  {
  }

  /** Replacing one buffer by another that meets BufOk keeps the invariant. */
  lemma SetBufCache(c: Config, s: State, b: nat, u: Buf)
    requires c.Valid() && InvShape(c, s) && InvCache(c, s)
    requires BufOk(c, SetBuf(s, b, u), b)
    requires Pinned(s, b) ==> u.valid
    ensures InvCache(c, SetBuf(s, b, u))
  {
    var r := SetBuf(s, b, u);
    forall b' | b' in r.cache
      ensures BufOk(c, r, b')
    {
      if b' != b {
        assert BufOk(c, s, b');
      }
    }
  }

  lemma SetBufKeeps(c: Config, s: State, b: nat, u: Buf)
    requires c.Valid() && Inv(c, s) && Running(s)
    requires BufOk(c, SetBuf(s, b, u), b)
    requires Pinned(s, b) ==> u.valid
    ensures Inv(c, SetBuf(s, b, u))
  {
    hide DecodeHeader, HeaderOk, EncodeHeader, InvDisk, InvIds, Replay, BufOk;
    SetBufCache(c, s, b, u);
    FrameDisk(c, s, SetBuf(s, b, u));
    FrameIds(s, SetBuf(s, b, u));
  }

  /** Steps of client processes that only touch buffers. */
  predicate BufferStep(t: Step) {
    t.Bget? || t.Lock? || t.Load? || t.Modify? || t.Unlock? || t.Drop?
  }

  /** A block that is not cached, or not valid, is current on disk. */
  lemma LoadReads(c: Config, s: State, p: Proc, b: nat)
    requires c.Valid() && Inv(c, s) && CanLoad(c, s, p, b)
    ensures s.disk[b] == Replay(c, s.events)[b]
  {
    hide DecodeHeader, HeaderOk, EncodeHeader, InvIds, Replay;
    assert BufOk(c, s, b);
    assert !Pinned(s, b);
  }

  lemma BufferStepKeeps(c: Config, s: State, t: Step)
    requires c.Valid() && Inv(c, s) && Enabled(c, s, t) && BufferStep(t)
    ensures Inv(c, Apply(c, s, t))
  {
    hide DecodeHeader, HeaderOk, EncodeHeader, InvDisk, InvIds, Replay, BufOk, Pinned;
    BufferStepBuf(c, s, t);
    SetBufKeeps(c, s, t.b, Apply(c, s, t).cache[t.b]);
  }

  lemma BufferStepBuf(c: Config, s: State, t: Step)
    requires c.Valid() && Inv(c, s) && Enabled(c, s, t) && BufferStep(t)
    ensures t.b in Apply(c, s, t).cache && Apply(c, s, t) == SetBuf(s, t.b, Apply(c, s, t).cache[t.b]) && Running(s)
    ensures InvShape(c, Apply(c, s, t)) && BufOk(c, Apply(c, s, t), t.b)
    ensures Pinned(s, t.b) ==> Apply(c, s, t).cache[t.b].valid
  {
    hide DecodeHeader, HeaderOk, EncodeHeader, InvDisk, InvIds, Replay, Encodable, CanCopy, CanWriteHead, PutHeader;
    if t.b in s.cache {
      assert BufOk(c, s, t.b);
    }
    if t.Load? {
      LoadReads(c, s, t.p, t.b);
    }
  }

  lemma EvictCache(c: Config, s: State, b: nat)
    requires c.Valid() && Inv(c, s) && b in s.cache && s.cache[b].refcnt == 0
    ensures InvShape(c, s.(cache := s.cache - {b})) && InvCache(c, s.(cache := s.cache - {b}))
  {
    hide DecodeHeader, HeaderOk, EncodeHeader, InvDisk, InvIds, InvControl, Replay;
    var r := s.(cache := s.cache - {b});
    assert BufOk(c, s, b);
    assert !Pinned(r, b);
    forall b' | b' in r.cache
      ensures BufOk(c, r, b')
    {
      assert BufOk(c, s, b');
    }
  }

  lemma EvictKeeps(c: Config, s: State, b: nat)
    requires c.Valid() && Inv(c, s) && b in s.cache && s.cache[b].refcnt == 0
    ensures Inv(c, s.(cache := s.cache - {b}))
  {
    hide DecodeHeader, HeaderOk, EncodeHeader, InvDisk, InvIds, InvCache, Replay;
    var r := s.(cache := s.cache - {b});
    EvictCache(c, s, b);
    FrameDisk(c, s, r);
    FrameIds(s, r);
  }

  /** More operations in progress: buffers stay well formed. */
  lemma GrowOpsCache(c: Config, s: State, r: State)
    requires c.Valid() && InvShape(c, s) && InvCache(c, s)
    requires r == s.(ops := r.ops, outstanding := r.outstanding, nextId := r.nextId)
    requires forall p :: p in s.ops ==> p in r.ops
    ensures InvCache(c, r)
  {
    hide DecodeHeader, HeaderOk, EncodeHeader, Replay;
    forall b | b in r.cache
      ensures BufOk(c, r, b)
    {
      assert BufOk(c, s, b);
    }
  }

  lemma BeginOpIds(s: State, p: Proc)
    requires InvIds(s) && p !in s.ops
    ensures InvIds(DoBegin(s, p))
  {
  }

  lemma BeginOpKeeps(c: Config, s: State, p: Proc)
    requires c.Valid() && Inv(c, s) && CanBegin(s, p)
    ensures Inv(c, DoBegin(s, p))
  {
    hide DecodeHeader, HeaderOk, EncodeHeader, Replay, InvCache, InvIds, InvDisk;
    var r := DoBegin(s, p);
    assert r.ops.Keys == s.ops.Keys + {p};
    GrowOpsCache(c, s, r);
    FrameDisk(c, s, r);
    BeginOpIds(s, p);
  }

  lemma LogWriteCache(c: Config, s: State, p: Proc, b: nat)
    requires c.Valid() && Inv(c, s) && CanLogWrite(c, s, p, b)
    ensures InvShape(c, DoLogWrite(s, p, b)) && InvCache(c, DoLogWrite(s, p, b))
  {
    hide DecodeHeader, HeaderOk, EncodeHeader, Replay, InvDisk, InvIds;
    var r := DoLogWrite(s, p, b);
    assert BufOk(c, s, b);
    ReplayAppend(c, s.events, Event(s.ops[p].id, b, s.cache[b].data));
    forall b' | b' in r.cache
      ensures BufOk(c, r, b')
    {
      assert BufOk(c, s, b');
    }
  }

  lemma LogWriteDisk(c: Config, s: State, p: Proc, b: nat)
    requires c.Valid() && Inv(c, s) && CanLogWrite(c, s, p, b)
    requires InvShape(c, DoLogWrite(s, p, b)) && InvControl(c, DoLogWrite(s, p, b))
    ensures InvDisk(c, DoLogWrite(s, p, b))
  {
    hide DecodeHeader, HeaderOk, EncodeHeader, Replay, InvCache, InvIds;
    var r := DoLogWrite(s, p, b);
    assert s.phase.Idle?;
    ReplayAppend(c, s.events, Event(s.ops[p].id, b, s.cache[b].data));
    assert r.events[..r.committed] == s.events[..s.committed];
    PendingAll(s.lh);
    PendingAll(r.lh);
  }

  lemma LogWriteKeeps(c: Config, s: State, p: Proc, b: nat)
    requires c.Valid() && Inv(c, s) && CanLogWrite(c, s, p, b)
    ensures Inv(c, DoLogWrite(s, p, b))
  {
    hide DecodeHeader, HeaderOk, EncodeHeader, Replay, InvCache, InvDisk;
    var r := DoLogWrite(s, p, b);
    LogWriteCache(c, s, p, b);
    assert InvControl(c, r) by {
      assert r.ops.Keys == s.ops.Keys;
    }
    LogWriteDisk(c, s, p, b);
  }

  lemma UncommittedIsLogged(c: Config, s: State)
    requires c.Valid() && InvShape(c, s) && HomeDurable(c, s)
    ensures s.committed < |s.events| ==> s.lh != []
  {
    if s.committed < |s.events| {
      assert s.events[s.committed].bno in s.lh;
    }
  }

  lemma EndOpCache(c: Config, s: State, p: Proc)
    requires c.Valid() && Inv(c, s) && CanEnd(s, p)
    ensures InvShape(c, DoEnd(s, p)) && InvCache(c, DoEnd(s, p))
  {
    hide DecodeHeader, HeaderOk, EncodeHeader, Replay, InvIds, InvDisk;
    var r := DoEnd(s, p);
    forall b | b in r.cache
      ensures BufOk(c, r, b)
    {
      assert BufOk(c, s, b);
    }
  }

  lemma EndOpIds(s: State, p: Proc)
    requires InvIds(s) && p in s.ops
    ensures InvIds(DoEnd(s, p))
  {
  }

  lemma EndOpKeeps(c: Config, s: State, p: Proc)
    requires c.Valid() && Inv(c, s) && CanEnd(s, p)
    ensures Inv(c, DoEnd(s, p))
  {
    hide DecodeHeader, HeaderOk, EncodeHeader, Replay, InvCache, BufOk, InvIds;
    var r := DoEnd(s, p);
    EndOpCache(c, s, p);
    EndOpIds(s, p);
    assert r.ops.Keys == s.ops.Keys - {p};
    UncommittedIsLogged(c, s);
    if s.lh == [] {
      assert s.events[..s.committed] == s.events;
    }
  }

  lemma CopyToLogKeeps(c: Config, s: State)
    requires c.Valid() && Inv(c, s) && s.phase.Logging? && CanCopy(c, s, s.phase.tail)
    ensures Inv(c, DoCopyToLog(c, s))
  {
    hide DecodeHeader, HeaderOk, EncodeHeader, Replay, InvIds;
    var r := DoCopyToLog(c, s);
    var b := s.lh[s.phase.tail];
    assert Pinned(s, b) && BufOk(c, s, b);
    FrameIds(s, r);
    CopyToLogCache(c, s);
    hide InvCache;
  }

  lemma CopyToLogCache(c: Config, s: State)
    requires c.Valid() && Inv(c, s) && s.phase.Logging? && CanCopy(c, s, s.phase.tail)
    ensures InvShape(c, DoCopyToLog(c, s)) && InvCache(c, DoCopyToLog(c, s))
  {
    hide DecodeHeader, HeaderOk, EncodeHeader, Replay, InvIds, InvDisk;
    var r := DoCopyToLog(c, s);
    forall b' | b' in r.cache
      ensures BufOk(c, r, b')
    {
      assert BufOk(c, s, b');
    }
  }

  lemma WriteHeadKeeps(c: Config, s: State)
    requires c.Valid() && Inv(c, s) && CanWriteHead(c, s)
    ensures Inv(c, DoWriteHead(c, s))
  {
    hide DecodeHeader, HeaderOk, EncodeHeader;
    var r := DoWriteHead(c, s);
    forall b | b in r.cache
      ensures BufOk(c, r, b)
    {
      assert BufOk(c, s, b);
    }
  }

  lemma InstallBlockCache(c: Config, s: State)
    requires c.Valid() && Inv(c, s) && s.phase.Installing? && CanCopy(c, s, s.phase.tail)
    ensures InvShape(c, DoInstallBlock(c, s)) && InvCache(c, DoInstallBlock(c, s))
  {
    hide DecodeHeader, HeaderOk, EncodeHeader, Replay;
    var r := DoInstallBlock(c, s);
    var t := s.phase.tail;
    var b := s.lh[t];
    assert Pinned(s, b) && BufOk(c, s, b);
    assert !Pinned(r, b);
    forall b' | b' in r.cache
      ensures BufOk(c, r, b')
    {
      assert BufOk(c, s, b');
      PendingNext(s.lh, t, b');
    }
  }

  lemma InstallBlockKeeps(c: Config, s: State)
    requires c.Valid() && Inv(c, s) && s.phase.Installing? && CanCopy(c, s, s.phase.tail)
    ensures Inv(c, DoInstallBlock(c, s))
  {
    hide DecodeHeader, HeaderOk, EncodeHeader, Replay, InvCache;
    InstallBlockCache(c, s);
  }

  lemma ClearHeadKeeps(c: Config, s: State)
    requires c.Valid() && Inv(c, s) && s.phase == Installing(|s.lh|)
    ensures Inv(c, DoClear(c, s, Cleared))
  {
    hide DecodeHeader, HeaderOk, EncodeHeader;
    var r := DoClear(c, s, Cleared);
    forall b | b in r.cache
      ensures BufOk(c, r, b)
    {
      assert BufOk(c, s, b);
    }
  }

  lemma FinishKeeps(c: Config, s: State)
    requires c.Valid() && Inv(c, s) && s.phase.Cleared?
    ensures Inv(c, s.(committing := false, phase := Idle))
  {
    hide DecodeHeader, HeaderOk, EncodeHeader;
    var r := s.(committing := false, phase := Idle);
    assert s.events[..s.committed] == s.events;
    forall b | b in r.cache
      ensures BufOk(c, r, b)
    {
      assert BufOk(c, s, b);
    }
  }

  lemma CrashIds(s: State)
    requires InvIds(s)
    ensures InvIds(DoCrash(s))
  {
  }

  lemma CrashKeeps(c: Config, s: State)
    requires c.Valid() && Inv(c, s)
    ensures Inv(c, DoCrash(s))
  {
    hide DecodeHeader, HeaderOk, EncodeHeader, InvIds;
    var r := DoCrash(s);
    CrashIds(s);
    assert r.events[..r.committed] == r.events;
    if s.committed == |s.events| {
      assert r.events == s.events;
    }
    var h := DecodeHeader(s.disk[c.l.start]);
    assert HomeHolds(c, r, h, 0);
    assert LogHolds(c, r, h, |h|);
  }

  lemma ReadHeadKeeps(c: Config, s: State)
    requires c.Valid() && Inv(c, s) && s.phase.Booting?
    ensures Inv(c, s.(lh := DecodeHeader(s.disk[c.l.start]), phase := Recovering(0)))
  {
    hide DecodeHeader, HeaderOk, EncodeHeader;
  }

  lemma RecoverBlockKeeps(c: Config, s: State)
    requires c.Valid() && Inv(c, s) && s.phase.Recovering? && CanCopy(c, s, s.phase.tail)
    ensures Inv(c, DoRecoverBlock(c, s))
  {
    hide DecodeHeader, HeaderOk, EncodeHeader, Replay, InvIds;
    FrameIds(s, DoRecoverBlock(c, s));
  }

  lemma RecoverClearKeeps(c: Config, s: State)
    requires c.Valid() && Inv(c, s) && s.phase == Recovering(|s.lh|)
    ensures Inv(c, DoClear(c, s, Idle))
  {
    hide DecodeHeader, HeaderOk, EncodeHeader;
    assert s.events[..s.committed] == s.events;
  }

  lemma StepKeeps(c: Config, s: State, t: Step)
    requires c.Valid() && Inv(c, s) && Enabled(c, s, t)
    ensures Inv(c, Apply(c, s, t))
  {
    hide Inv;
    match t
    case BeginOp(p) => BeginOpKeeps(c, s, p);
    case LogWrite(p, b) => LogWriteKeeps(c, s, p, b);
    case EndOp(p) => EndOpKeeps(c, s, p);
    case CopyToLog => CopyToLogKeeps(c, s);
    case WriteHead => WriteHeadKeeps(c, s);
    case InstallBlock => InstallBlockKeeps(c, s);
    case ClearHead => ClearHeadKeeps(c, s);
    case Finish => FinishKeeps(c, s);
    case Crash => CrashKeeps(c, s);
    case ReadHead => ReadHeadKeeps(c, s);
    case RecoverBlock => RecoverBlockKeeps(c, s);
    case RecoverClear => RecoverClearKeeps(c, s);
    case Evict(b) => EvictKeeps(c, s, b);
    case _ => BufferStepKeeps(c, s, t);
  }

  // ----- what every run guarantees

  /** Every state that a run can reach, with any interleaving and any crashes, meets the invariant. */
  lemma {:induction false} RunKeeps(c: Config, steps: seq<Step>)
    requires c.Valid() && Legal(c, steps)
    ensures Inv(c, After(c, steps))
    decreases |steps|
  {
    if steps == [] {
      InitInv(c);
    } else {
      var k := |steps| - 1;
      RunKeeps(c, steps[..k]);
      StepKeeps(c, After(c, steps[..k]), steps[k]);
    }
  }

  ghost predicate Recoverable(c: Config, s: State)
    requires c.Valid()
  {
    && |s.disk| == c.l.nblocks
    && HeaderOk(s.disk[c.l.start])
    && c.l.ValidHeader(DecodeHeader(s.disk[c.l.start]))
  }

  /** What a recovery started now, and left to finish, makes of the home blocks. */
  lemma RecoveryRestores(c: Config, s: State)
    requires c.Valid() && Inv(c, s)
    ensures Recoverable(c, s)
    ensures SameHome(c.l, Recovered(c.l, s.disk), Replay(c, s.events[..s.committed]))
  {
    hide EncodeHeader, DecodeHeader, HeaderOk, Replay, Recovered, InvCache, InvIds;
    var h := DecodeHeader(s.disk[c.l.start]);
    PendingAll(h);
    if s.committed == |s.events| {
      assert s.events[..s.committed] == s.events;
    }
    RecoversTo(c.l, s.disk, Replay(c, s.events[..s.committed]));
  }

  /**
   Crash atomicity. After any run, whatever block write the power failed at and however
   often recovery was itself cut short, finishing recovery leaves every home block with
   exactly the contents given by the committed log_writes, and no operation is split
   between the committed log_writes and the lost ones.
   */
  lemma CrashAtomicity(c: Config, steps: seq<Step>)
    requires c.Valid() && Legal(c, steps)
    ensures var s := After(c, steps);
            && Recoverable(c, s)
            && s.committed <= |s.events| && EventsOk(c, s.events)
            && SameHome(c.l, Recovered(c.l, s.disk), Replay(c, s.events[..s.committed]))
            && forall i, j :: 0 <= i < s.committed <= j < |s.events| ==> s.events[i].op != s.events[j].op
  {
    RunKeeps(c, steps);
    RecoveryRestores(c, After(c, steps));
  }

  /** The header write is the commit point: no other step changes what recovery would restore. */
  lemma OnlyHeaderWriteCommits(c: Config, s: State, t: Step)
    requires c.Valid() && Inv(c, s) && Enabled(c, s, t) && t != WriteHead
    ensures var r := Apply(c, s, t);
            && Recoverable(c, s) && Recoverable(c, r)
            && SameHome(c.l, Recovered(c.l, s.disk), Recovered(c.l, r.disk))
  {
    hide Replay, Recovered, InvCache, InvIds, InvDisk, InvControl, HeaderOk, DecodeHeader, EncodeHeader;
    var r := Apply(c, s, t);
    StepKeeps(c, s, t);
    RecoveryRestores(c, s);
    RecoveryRestores(c, r);
    assert r.events[..r.committed] == s.events[..s.committed];
  }

  /** Durability, one step: what is committed stays committed, in the same order. */
  lemma StepDurable(c: Config, s: State, t: Step)
    requires c.Valid() && InvShape(c, s) && Enabled(c, s, t)
    ensures var r := Apply(c, s, t);
            s.committed <= r.committed && s.committed <= |r.events|
                && r.events[..s.committed] == s.events[..s.committed]
  {
    hide Replay, EncodeHeader, DecodeHeader;
  }

  /** Durability over a run: no later step or crash undoes a commit. */
  lemma {:induction false} CommitsAreForever(c: Config, steps: seq<Step>, k: nat)
    requires c.Valid() && Legal(c, steps) && k <= |steps|
    ensures Legal(c, steps[..k])
    ensures var s, r := After(c, steps[..k]), After(c, steps);
            s.committed <= r.committed <= |r.events| && s.committed <= |s.events|
            && r.events[..s.committed] == s.events[..s.committed]
    decreases |steps|
  {
    hide InvControl, InvCache, InvDisk, InvIds, Enabled, Apply;
    RunKeeps(c, steps);
    if k == |steps| {
      assert steps[..k] == steps;
    } else {
      var n := |steps| - 1;
      assert steps[..n][..k] == steps[..k];
      CommitsAreForever(c, steps[..n], k);
      RunKeeps(c, steps[..n]);
      var m := After(c, steps[..n]);
      StepDurable(c, m, steps[n]);
      var s, r := After(c, steps[..k]), After(c, steps);
      assert r.events[..s.committed] == r.events[..m.committed][..s.committed];
      assert m.events[..s.committed] == m.events[..m.committed][..s.committed];
    }
  }

  /** Durability, exactly: only the header write makes something durable, and then everything logged so far. */
  lemma DurableAfter(c: Config, s: State, t: Step)
    requires c.Valid() && InvShape(c, s) && Enabled(c, s, t)
    ensures var r := Apply(c, s, t);
            r.committed <= |r.events|
                && r.events[..r.committed] == if t.WriteHead? then s.events else s.events[..s.committed]
  {
    hide Replay, EncodeHeader, DecodeHeader;
    if t.WriteHead? {
      assert s.events[..|s.events|] == s.events;
    }
  }

  /**
   What a crash restores is the state of some earlier moment of the run at which no operation was in progress: after the
   first k steps, for the k returned.
   */
  lemma {:induction false} CrashGoesBackToQuiet(c: Config, steps: seq<Step>) returns (k: nat)
    requires c.Valid() && Legal(c, steps)
    ensures k <= |steps| && Legal(c, steps[..k]) && After(c, steps[..k]).ops == map[]
    ensures var s := After(c, steps);
            s.committed <= |s.events| && After(c, steps[..k]).events == s.events[..s.committed]
    decreases |steps|
  {
    hide InvCache, InvDisk, InvIds, Apply;
    if steps == [] {
      k := 0;
    } else {
      var n := |steps| - 1;
      RunKeeps(c, steps[..n]);
      var m := After(c, steps[..n]);
      DurableAfter(c, m, steps[n]);
      if steps[n].WriteHead? {
        k := n;
      } else {
        k := CrashGoesBackToQuiet(c, steps[..n]);
        assert steps[..n][..k] == steps[..k];
      }
    }
  }

  /** P holds of the home blocks as the processes see them, whenever no operation is in progress. */
  ghost predicate HoldsWhenQuiet(c: Config, steps: seq<Step>, P: Disk -> bool)
    requires c.Valid()
  {
    forall k :: 0 <= k <= |steps| && Legal(c, steps[..k]) && After(c, steps[..k]).ops == map[]
      ==> EventsOk(c, After(c, steps[..k]).events) && P(Replay(c, After(c, steps[..k]).events))
  }

  /**
   So whatever holds between operations, such as the ownership of blocks, holds of the home blocks after any crash and
   recovery.
   */
  lemma CrashPreserves(c: Config, steps: seq<Step>, P: Disk -> bool)
    requires c.Valid() && Legal(c, steps) && HoldsWhenQuiet(c, steps, P)
    ensures var s := After(c, steps);
            && Recoverable(c, s) && s.committed <= |s.events| && EventsOk(c, s.events)
            && SameHome(c.l, Recovered(c.l, s.disk), Replay(c, s.events[..s.committed]))
            && P(Replay(c, s.events[..s.committed]))
  {
    hide Legal, After, Replay, Recovered, Recoverable, SameHome;
    CrashAtomicity(c, steps);
    var k := CrashGoesBackToQuiet(c, steps);
    assert EventsOk(c, After(c, steps[..k]).events) && P(Replay(c, After(c, steps[..k]).events));
  }

  /**
   Group commit. While a commit is in progress no operation is, so neither end_op's panic
   nor log_write's "outside of trans" panic can be reached by a caller inside an operation,
   and write_log copies the contents last logged, not a stale disk copy.
   */
  lemma GroupCommit(c: Config, steps: seq<Step>)
    requires c.Valid() && Legal(c, steps)
    ensures var s := After(c, steps);
            && (s.committing ==> s.outstanding == 0 && s.ops == map[])
            && (forall p :: p in s.ops ==> !s.committing && s.outstanding >= 1)
            && |s.disk| == c.l.nblocks && EventsOk(c, s.events)
            && (s.phase.Logging? ==>
                  forall b :: b in s.lh ==> b < |s.disk| && Bread(s, b) == Replay(c, s.events)[b])
  {
    RunKeeps(c, steps);
    var s := After(c, steps);
    hide Replay;
    forall p | p in s.ops
      ensures s.outstanding >= 1
    {
      assert p in s.ops.Keys;
    }
    if s.phase.Logging? {
      forall b | b in s.lh
        ensures b < |s.disk| && Bread(s, b) == Replay(c, s.events)[b]
      {
        assert Pinned(s, b) && BufOk(c, s, b);
      }
    }
  }

  /** Each logged, not yet installed block holds exactly one pin, so its buffer is never recycled. */
  lemma LoggedBlocksPinnedOnce(c: Config, steps: seq<Step>, b: nat)
    requires c.Valid() && Legal(c, steps) && Pinned(After(c, steps), b)
    ensures var s := After(c, steps);
            && b in s.cache && s.cache[b].valid
            && s.cache[b].refcnt == |s.cache[b].users| + 1
            && !Enabled(c, s, Evict(b))
  {
    RunKeeps(c, steps);
    assert BufOk(c, After(c, steps), b);
  }

  /** A process that has locked a buffer and not changed it sees the latest logged contents. */
  lemma ReadsAreCurrent(c: Config, steps: seq<Step>, p: Proc, b: nat)
    requires c.Valid() && Legal(c, steps) && OwnedBy(After(c, steps), p, b)
    requires After(c, steps).cache[b].valid && !After(c, steps).cache[b].dirty
    ensures var s := After(c, steps);
            b < c.l.nblocks && EventsOk(c, s.events) && s.cache[b].data == Replay(c, s.events)[b]
  {
    RunKeeps(c, steps);
    assert BufOk(c, After(c, steps), b);
  }

  /** What is in the cache stays readable from it, without the disk, until its buffer is recycled. */
  lemma ValidStays(c: Config, steps: seq<Step>, t: Step, b: nat)
    requires c.Valid() && Legal(c, steps) && Enabled(c, After(c, steps), t)
    requires b in After(c, steps).cache && After(c, steps).cache[b].valid
    ensures var r := Apply(c, After(c, steps), t); t == Evict(b) || t.Crash? || (b in r.cache && r.cache[b].valid)
  {
    hide Legal, After;
  }

  /** With no operation and no commit in progress, everything ever logged and not lost is on disk. */
  lemma QuietMeansDurable(c: Config, steps: seq<Step>)
    requires c.Valid() && Legal(c, steps)
    requires After(c, steps).phase.Idle? && After(c, steps).ops == map[]
    ensures var s := After(c, steps);
            && s.committed == |s.events| && EventsOk(c, s.events)
            && SameHome(c.l, s.disk, Replay(c, s.events))
  {
    RunKeeps(c, steps);
    var s := After(c, steps);
    UncommittedIsLogged(c, s);
    assert s.events[..s.committed] == s.events;
  }

  /** Recovery is never stuck: its next step is always enabled. */
  lemma RecoveryProgress(c: Config, steps: seq<Step>)
    requires c.Valid() && Legal(c, steps) && !Running(After(c, steps))
    ensures var s := After(c, steps);
            Enabled(c, s, ReadHead) || Enabled(c, s, RecoverBlock) || Enabled(c, s, RecoverClear)
  {
    hide Replay, DecodeHeader, EncodeHeader, Apply, InvCache, InvIds, Legal, After;
    RunKeeps(c, steps);
  }

  /** A commit is never stuck either, but for a block that a process has locked; and it is for a logged block. */
  lemma CommitProgress(c: Config, steps: seq<Step>)
    requires c.Valid() && Legal(c, steps) && After(c, steps).committing
    ensures var s := After(c, steps);
            || Enabled(c, s, CopyToLog) || Enabled(c, s, WriteHead) || Enabled(c, s, InstallBlock)
            || Enabled(c, s, ClearHead) || Enabled(c, s, Finish)
            || (&& (s.phase.Logging? || s.phase.Installing?) && s.phase.tail < |s.lh|
                && !Lockable(s, s.lh[s.phase.tail]))
    ensures After(c, steps).phase.Logging? || After(c, steps).phase.Installing? ==> After(c, steps).lh != []
  {
    hide Replay, DecodeHeader, EncodeHeader, Apply, InvCache, InvIds, Legal, After;
    RunKeeps(c, steps);
  }

  lemma Extend(c: Config, steps: seq<Step>, t: Step)
    requires Legal(c, steps) && Enabled(c, After(c, steps), t)
    ensures Legal(c, steps + [t]) && After(c, steps + [t]) == Apply(c, After(c, steps), t)
  {
    assert (steps + [t])[..|steps|] == steps;
  }

  predicate IsRecovery(t: Step) {
    t.ReadHead? || t.RecoverBlock? || t.RecoverClear?
  }

  /** One step of recovery: what is left to do shrinks, and what is committed stays. */
  lemma RecoveryStep(c: Config, s: State, t: Step)
    requires c.Valid() && Inv(c, s) && Enabled(c, s, t) && IsRecovery(t)
    ensures var r := Apply(c, s, t);
            && r.events == s.events && r.committed == s.committed && r.ops == s.ops == map[]
            && (r.phase.Idle? || (r.phase.Recovering? && LeftToDo(r) < LeftToDo(s)))
  {
    hide Replay, DecodeHeader, EncodeHeader, InvCache, InvIds, HomeHolds, LogHolds, HomeDurable;
  }

  function LeftToDo(s: State): int {
    if s.phase.Recovering? then |s.lh| - s.phase.tail else LOGSIZE + 1
  }

  lemma LeftIsBounded(c: Config, s: State)
    requires c.Valid() && Inv(c, s)
    ensures 0 <= LeftToDo(s) <= LOGSIZE + 1
  {
    hide Replay, DecodeHeader, EncodeHeader, InvCache, InvIds, InvDisk;
  }

  lemma {:induction false} FinishRecovery(c: Config, steps: seq<Step>) returns (more: seq<Step>)
    requires c.Valid() && Legal(c, steps) && !Running(After(c, steps))
    ensures forall i :: 0 <= i < |more| ==> IsRecovery(more[i])
    ensures Legal(c, steps + more)
    ensures var s, r := After(c, steps), After(c, steps + more);
            r.phase.Idle? && r.ops == map[] && r.events == s.events && r.committed == s.committed
    decreases RunLeft(c, steps)
  {
    hide Replay, DecodeHeader, EncodeHeader, Apply, Inv, Legal, After, LeftToDo;
    RunKeeps(c, steps);
    RecoveryProgress(c, steps);
    var s := After(c, steps);
    var t := if Enabled(c, s, ReadHead) then ReadHead else if Enabled(c, s, RecoverBlock) then RecoverBlock
             else RecoverClear;
    hide Enabled;
    RecoveryStep(c, s, t);
    Extend(c, steps, t);
    RunKeeps(c, steps + [t]);
    if Apply(c, s, t).phase.Idle? {
      more := [t];
    } else {
      LeftIsBounded(c, s);
      LeftIsBounded(c, Apply(c, s, t));
      var rest := FinishRecovery(c, steps + [t]);
      more := [t] + rest;
      assert steps + [t] + rest == steps + more;
    }
  }

  function RunLeft(c: Config, steps: seq<Step>): int
    requires Legal(c, steps)
  {
    LeftToDo(After(c, steps))
  }

  /**
   The power can fail at any moment of any run, and recovery, if left alone, then comes to its end; every home block has
   then the contents of the committed writes, and the log is empty.
   */
  lemma CrashRecovers(c: Config, steps: seq<Step>) returns (more: seq<Step>)
    requires c.Valid() && Legal(c, steps)
    ensures forall i :: 0 <= i < |more| ==> IsRecovery(more[i])
    ensures Legal(c, steps + [Crash]) && Legal(c, steps + [Crash] + more)
    ensures var s, r := After(c, steps), After(c, steps + [Crash] + more);
            && r.phase.Idle? && r.ops == map[] && s.committed <= |s.events| && EventsOk(c, s.events)
            && SameHome(c.l, r.disk, Replay(c, s.events[..s.committed])) && EmptyLog(c.l, r.disk)
  {
    hide Replay, DecodeHeader, EncodeHeader, HeaderOk, Legal, After, InvCache, InvIds, BufOk;
    RunKeeps(c, steps);
    Extend(c, steps, Crash);
    RunKeeps(c, steps + [Crash]);
    more := FinishRecovery(c, steps + [Crash]);
    var all := steps + [Crash] + more;
    RunKeeps(c, all);
    QuietMeansDurable(c, all);
  }

  // ----- buffers during a commit

  /** The number of buffers in the kernel's cache. */
  const NBUF: nat := MAXOPBLOCKS * 3

  /** Blocks whose buffer bget may not recycle. */
  function Busy(s: State): set<nat> {
    set b | b in s.cache && s.cache[b].refcnt > 0
  }

  function PinnedBlocks(s: State): set<nat> {
    set b | b in s.cache && Pinned(s, b)
  }

  /** Blocks that a process holds although the log does not. */
  function HeldOnly(s: State): set<nat> {
    set b | b in s.cache && s.cache[b].users != {} && !Pinned(s, b)
  }

  lemma BusyIs(c: Config, s: State)
    requires c.Valid() && Inv(c, s)
    ensures Busy(s) == PinnedBlocks(s) + HeldOnly(s)
  {
    hide Replay, Pinned, InvDisk, InvIds, InvControl;
    forall b
      ensures b in Busy(s) <==> b in PinnedBlocks(s) + HeldOnly(s)
    {
      if b in s.cache {
        assert BufOk(c, s, b);
        assert |s.cache[b].users| > 0 <==> s.cache[b].users != {};
      }
    }
  }

  ghost function Elements(h: seq<nat>): (e: set<nat>)
    ensures |e| <= |h| && forall b :: b in e <==> b in h
  {
    if h == [] then {} else Elements(h[1..]) + {h[0]}
  }

  lemma PinnedAtMost(c: Config, s: State)
    requires c.Valid() && Inv(c, s)
    ensures |PinnedBlocks(s)| <= |s.lh| < c.l.size
  {
    hide Replay, InvCache, InvDisk, InvIds, InvControl;
    var e := Elements(s.lh);
    assert PinnedBlocks(s) <= e;
    assert e == PinnedBlocks(s) + (e - PinnedBlocks(s));
  }

  /**
   On every run, also during a commit: bget can recycle one of NBUF buffers if and only if the processes hold fewer
   buffers, beyond those of logged blocks, than the logged blocks leave. If no process holds one, that is so for every
   log that is no larger than the cache, as that of mkfs is.
   */
  lemma BufferLeftIff(c: Config, steps: seq<Step>)
    requires c.Valid() && Legal(c, steps)
    ensures var s := After(c, steps); |Busy(s)| < NBUF <==> |HeldOnly(s)| < NBUF - |PinnedBlocks(s)|
    ensures var s := After(c, steps); HeldOnly(s) == {} && c.l.size <= NBUF ==> |Busy(s)| < NBUF
  {
    hide Inv, Legal, After;
    RunKeeps(c, steps);
    var s := After(c, steps);
    BusyIs(c, s);
    PinnedAtMost(c, s);
    assert PinnedBlocks(s) !! HeldOnly(s);
  }

  /**
   When fewer than NBUF buffers are busy but as many are in use, some buffer can be recycled, and is one less then.
   */
  lemma SomeBufferRecycles(c: Config, steps: seq<Step>) returns (b: nat)
    requires c.Valid() && Legal(c, steps) && |Busy(After(c, steps))| < NBUF <= |After(c, steps).cache|
    ensures var s := After(c, steps);
            Enabled(c, s, Evict(b)) && |Apply(c, s, Evict(b)).cache| == |s.cache| - 1
            && forall d :: d in s.cache && d != b ==> d in Apply(c, s, Evict(b)).cache
  {
    hide Inv, Legal, After, Busy;
    RunKeeps(c, steps);
    var s := After(c, steps);
    assert |s.cache.Keys| == |s.cache|;
    NotAll(s.cache.Keys, Busy(s));
    b :| b in s.cache.Keys - Busy(s);
    NotBusy(c, s, b);
    OneLess(s.cache, b);
  }

  lemma NotBusy(c: Config, s: State, b: nat)
    requires c.Valid() && Inv(c, s) && b in s.cache && b !in Busy(s)
    ensures s.cache[b].refcnt == 0
  {
    hide Replay, InvDisk, InvIds, InvControl, Pinned;
    assert BufOk(c, s, b);
  }

  lemma NotAll(a: set<nat>, b: set<nat>)
    requires |b| < |a|
    ensures a - b != {}
  {
    assert b == a * b + (b - a);
  }

  lemma OneLess(m: map<nat, Buf>, b: nat)
    requires b in m
    ensures |m - {b}| == |m| - 1
  {
    assert (m - {b}).Keys == m.Keys - {b};
    assert |(m - {b}).Keys| == |m - {b}| && |m.Keys| == |m|;
  }

  // ----- a write reaches its home block

  /** Process 0 in an operation, with block b in a buffer. */
  ghost function WithBuf(c: Config, b: nat, u: Buf): State {
    State(c.base, map[b := u], [], 1, false, map[0 := Op(0, {})], Idle, 1, [], 0)
  }

  lemma FirstSteps(c: Config, b: nat, data: Block) returns (steps: seq<Step>)
    requires c.Valid() && c.l.IsHome(b)
    ensures Legal(c, steps) && After(c, steps) == WithBuf(c, b, Buf(data, true, 1, Some(0), {0}, true))
  {
    hide DecodeHeader, HeaderOk, Legal, After;
    BootSteps(c, b);
    steps := [BeginOp(0), Bget(0, b, ZERO_BLOCK)];
    Extend(c, steps, Lock(0, b));
    steps := steps + [Lock(0, b)];
    assert After(c, steps) == WithBuf(c, b, Buf(ZERO_BLOCK, false, 1, Some(0), {0}, false));
    Extend(c, steps, Load(0, b));
    steps := steps + [Load(0, b)];
    assert After(c, steps) == WithBuf(c, b, Buf(c.base[b], true, 1, Some(0), {0}, false));
    Extend(c, steps, Modify(0, b, data));
    steps := steps + [Modify(0, b, data)];
  }

  lemma BootSteps(c: Config, b: nat)
    requires c.Valid() && c.l.IsHome(b)
    ensures Legal(c, [BeginOp(0), Bget(0, b, ZERO_BLOCK)])
    ensures After(c, [BeginOp(0), Bget(0, b, ZERO_BLOCK)]) == WithBuf(c, b, Buf(ZERO_BLOCK, false, 1, None, {0}, false))
  {
    hide DecodeHeader, HeaderOk;
    assert Legal(c, []) && After(c, []) == Init(c);
    hide Legal, After;
    Extend(c, [], BeginOp(0));
    assert [] + [BeginOp(0)] == [BeginOp(0)];
    assert After(c, [BeginOp(0)]) == State(c.base, map[], [], 1, false, map[0 := Op(0, {})], Idle, 1, [], 0);
    Extend(c, [BeginOp(0)], Bget(0, b, ZERO_BLOCK));
    assert [BeginOp(0)] + [Bget(0, b, ZERO_BLOCK)] == [BeginOp(0), Bget(0, b, ZERO_BLOCK)];
  }

  /** Block b is logged with contents data, by operation 0, and the last operation has ended. */
  ghost function Ended(c: Config, b: nat, data: Block, disk: Disk, phase: Phase, committed: nat): State {
    State(disk, map[b := Buf(data, true, 2, None, {0}, false)], [b], 0, true, map[], phase, 1, [Event(0, b, data)],
          committed)
  }

  lemma LoggedSteps(c: Config, b: nat, data: Block) returns (steps: seq<Step>)
    requires c.Valid() && c.l.IsHome(b) && c.opBlocks >= 1 && c.l.size >= 2
    ensures Legal(c, steps)
    ensures After(c, steps) == State(c.base, map[b := Buf(data, true, 2, None, {0}, false)], [b], 1, false,
                                     map[0 := Op(0, {b})],
                                     Idle, 1, [Event(0, b, data)], 0)
  {
    hide DecodeHeader, HeaderOk, Legal, After;
    steps := FirstSteps(c, b, data);
    assert {} + {b} == {b};
    Extend(c, steps, LogWrite(0, b));
    steps := steps + [LogWrite(0, b)];
    Extend(c, steps, Unlock(0, b));
    steps := steps + [Unlock(0, b)];
  }

  lemma LogSteps(c: Config, b: nat, data: Block) returns (steps: seq<Step>)
    requires c.Valid() && c.l.IsHome(b) && c.opBlocks >= 1 && c.l.size >= 2
    ensures Legal(c, steps) && After(c, steps) == Ended(c, b, data, c.base, Logging(0), 0)
  {
    hide DecodeHeader, HeaderOk, Legal, After;
    steps := LoggedSteps(c, b, data);
    Extend(c, steps, EndOp(0));
    steps := steps + [EndOp(0)];
    assert map[0 := Op(0, {b})] - {0} == map[];
  }

  lemma CommitSteps(c: Config, b: nat, data: Block) returns (steps: seq<Step>)
    requires c.Valid() && c.l.IsHome(b) && c.opBlocks >= 1 && c.l.size >= 2
    ensures c.l.start + 1 < |c.base| && Encodable([b]) && Legal(c, steps)
    ensures After(c, steps) == Ended(c, b, data, PutHeader(c, c.base[c.l.start + 1 := data], [b]), Installing(0), 1)
  {
    hide DecodeHeader, HeaderOk, Legal, After, EncodeHeader;
    steps := LogSteps(c, b, data);
    Extend(c, steps, CopyToLog);
    steps := steps + [CopyToLog];
    assert After(c, steps) == Ended(c, b, data, c.base[c.l.start + 1 := data], Logging(1), 0);
    Extend(c, steps, WriteHead);
    steps := steps + [WriteHead];
  }

  /** A block that one operation logs is on its home block once the commit is done: for every block and contents. */
  lemma WriteReachesDisk(c: Config, b: nat, data: Block) returns (steps: seq<Step>)
    requires c.Valid() && c.l.IsHome(b) && c.opBlocks >= 1 && c.l.size >= 2
    ensures Legal(c, steps)
    ensures var s := After(c, steps);
            && b < |s.disk| && s.disk[b] == data && s.phase == Idle && !s.committing && s.lh == [] && s.committed == 1
            && s.events == [Event(0, b, data)]
  {
    hide DecodeHeader, HeaderOk, Legal, After, EncodeHeader;
    steps := CommitSteps(c, b, data);
    Extend(c, steps, InstallBlock);
    steps := steps + [InstallBlock];
    Extend(c, steps, ClearHead);
    steps := steps + [ClearHead];
    Extend(c, steps, Finish);
    steps := steps + [Finish];
  }

  /** There is a device to which all this applies. */
  lemma SomeConfig() returns (c: Config)
    ensures c.Valid() && c.l.IsHome(0) && c.opBlocks >= 1 && c.l.size >= 2
  {
    hide DecodeHeader, HeaderOk, EncodeHeader;
    c := Config(Layout(4, 1, 2), [ZERO_BLOCK, EncodeHeader(ZERO_BLOCK, []), ZERO_BLOCK, ZERO_BLOCK], 1);
  }
}
