/**
 virtio_disk_rw and virtio_disk_intr (kernel/virtio_disk.c) against a device that
 fetches requests in order and completes them in any order (sections 2.6 and 5.2
 of VIRTIO 1.1). Each critical section of vdisk_lock is one step, except that the
 device may act between writing the avail ring and publishing its index.
 */
module Virtqueue {
  import opened Common
  import opened Virtio

  /** struct virtio_blk_req: the command header. */
  datatype Header = Req(write: bool, sector: nat)

  /** Where a request is. Positions k count all requests ever posted or completed. */
  datatype Stage = Prepared | Posted(k: nat) | Working | Done(k: nat, status: nat) | Seen

  /** A request in flight, filed under its head descriptor. */
  datatype Chain = Chain(mid: nat, last: nat, buf: nat, req: Header, stage: Stage)

  /** What the device has read from a chain. */
  datatype Fetched = Fetched(req: Header, buf: nat, writesBuf: bool, statusAt: nat)

  datatype Info = Info(buf: Option<nat>, status: nat)

  /**
   The shared memory and the driver's struct disk: desc, avail, used, free, info, ops; used_idx is
   driverIdx; deviceIdx is how far the device has looked in avail. disk: buffers with b->disk set.
   locked: the head a driver process is posting, with vdisk_lock held.
   */
  datatype Memory = Memory(free: seq<bool>, desc: seq<Desc>, ops: seq<Header>, info: seq<Info>,
                           availRing: seq<nat>, availIdx: nat, usedRing: seq<nat>, usedIdx: nat,
                           driverIdx: nat, deviceIdx: nat, disk: set<nat>, locked: Option<nat>)

  /**
   What has happened: the chains in flight, by head and by descriptor and by buffer; everything posted and completed.
   */
  datatype Past = Past(chains: map<nat, Chain>, role: map<nat, nat>, owner: map<nat, nat>,
                       posted: seq<nat>, fetched: nat, completed: seq<nat>, seen: nat, read: map<nat, Fetched>)

  datatype Queue = Queue(m: Memory, p: Past)

  datatype Op =
    | Prepare(buf: nat, req: Header, idx: seq<nat>)    // virtio_disk_rw up to the avail ring
    | Publish                                          // advances the avail index, and then sleeps on b
    | Fetch                                            // device
    | Complete(h: nat, status: nat)                    // device
    | Intr                                             // one iteration of virtio_disk_intr's loop
    | Finish(h: nat)                                   // virtio_disk_rw after b->disk has been cleared

  predicate Sized(m: Memory) {
    |m.free| == |m.desc| == |m.ops| == |m.info| == |m.availRing| == |m.usedRing| == NUM
  }

  /** What the device reads when it follows a chain from descriptor h. */
  function Follow(m: Memory, h: nat): Option<Fetched> {
    if h < |m.desc| && m.desc[h].area.Header? && m.desc[h].hasNext && m.desc[h].area.op < |m.ops| then
      var d1 := m.desc[h].next;
      if d1 < |m.desc| && m.desc[d1].area.Data? && m.desc[d1].hasNext then
        var d2 := m.desc[d1].next;
        if d2 < |m.desc| && m.desc[d2].area.Status? && !m.desc[d2].hasNext && m.desc[d2].deviceWrites then
          Some(Fetched(m.ops[m.desc[h].area.op], m.desc[d1].area.buf, m.desc[d1].deviceWrites, m.desc[d2].area.op))
        else None
      else None
    else None
  }

  ghost predicate Allowed(q: Queue, op: Op) {
    var m, p := q.m, q.p;
    Sized(m) &&
    match op
    case Prepare(buf, req, idx) =>
      m.locked == None && buf !in p.owner && |idx| == 3
      && (forall k :: 0 <= k < 3 ==> idx[k] < NUM && m.free[idx[k]])
      && idx[0] != idx[1] && idx[0] != idx[2] && idx[1] != idx[2]
    case Publish => m.locked.Some? && m.locked.value in p.chains
    case Fetch => m.deviceIdx != m.availIdx && m.availRing[m.deviceIdx % NUM] in p.chains
                  && Follow(m, m.availRing[m.deviceIdx % NUM]).Some?
    case Complete(h, status) => h in p.chains && p.chains[h].stage.Working? && h in p.read && p.read[h].statusAt < NUM
    case Intr => m.locked == None && m.driverIdx != m.usedIdx
                 && var id := m.usedRing[m.driverIdx % NUM];
                    id < NUM && m.info[id].status == 0 && m.info[id].buf.Some? && id in p.chains
    case Finish(h) => m.locked == None && h in p.chains && p.chains[h].buf !in m.disk
                      && h < NUM && p.chains[h].mid < NUM && p.chains[h].last < NUM
  }

  function Formatted(desc: seq<Desc>, buf: nat, write: bool, h: nat, mid: nat, last: nat): seq<Desc>
    requires h < |desc| && mid < |desc| && last < |desc|
  {
    desc[h := Desc(Area.Header(h), true, false, mid)]
        [mid := Desc(Data(buf), true, !write, last)]
        [last := Desc(Status(h), false, true, 0)]
  }

  function MemoryAfter(q: Queue, op: Op): Memory
    requires Allowed(q, op)
  {
    var m, p := q.m, q.p;
    match op
    case Prepare(buf, req, idx) =>
      var h := idx[0];
      m.(free := m.free[h := false][idx[1] := false][idx[2] := false],
         ops := m.ops[h := req],
         desc := Formatted(m.desc, buf, req.write, h, idx[1], idx[2]),
         info := m.info[h := Info(Some(buf), 0xff)],
         disk := m.disk + {buf},
         availRing := m.availRing[m.availIdx % NUM := h],
         locked := Some(h))
    case Publish => m.(availIdx := (m.availIdx + 1) % U16, locked := None)
    case Fetch => m.(deviceIdx := (m.deviceIdx + 1) % U16)
    case Complete(h, status) =>
      var at := p.read[h].statusAt;
      m.(info := m.info[at := m.info[at].(status := status)],
         usedRing := m.usedRing[m.usedIdx % NUM := h],
         usedIdx := (m.usedIdx + 1) % U16)
    case Intr =>
      var id := m.usedRing[m.driverIdx % NUM];
      m.(disk := m.disk - {m.info[id].buf.value}, driverIdx := (m.driverIdx + 1) % U16)
    case Finish(h) =>
      var c := p.chains[h];
      m.(info := m.info[h := m.info[h].(buf := None)],
         free := m.free[h := true][c.mid := true][c.last := true],
         desc := m.desc[h := CLEAR][c.mid := CLEAR][c.last := CLEAR])
  }

  function AtStage(p: Past, h: nat, stage: Stage): Past
    requires h in p.chains
  {
    p.(chains := p.chains[h := p.chains[h].(stage := stage)])
  }

  function PastAfter(q: Queue, op: Op): Past
    requires Allowed(q, op)
  {
    var m, p := q.m, q.p;
    match op
    case Prepare(buf, req, idx) =>
      var h := idx[0];
      p.(chains := p.chains[h := Chain(idx[1], idx[2], buf, req, Prepared)],
         role := p.role[h := h][idx[1] := h][idx[2] := h],
         owner := p.owner[buf := h])
    case Publish =>
      AtStage(p, m.locked.value, Posted(|p.posted|)).(posted := p.posted + [m.locked.value])
    case Fetch =>
      var h := m.availRing[m.deviceIdx % NUM];
      AtStage(p, h, Working).(fetched := p.fetched + 1, read := p.read[h := Follow(m, h).value])
    case Complete(h, status) =>
      AtStage(p, h, Done(|p.completed|, status)).(completed := p.completed + [h])
    case Intr => AtStage(p, m.usedRing[m.driverIdx % NUM], Seen).(seen := p.seen + 1)
    case Finish(h) =>
      var c := p.chains[h];
      p.(chains := p.chains - {h}, role := p.role - {h, c.mid, c.last}, owner := p.owner - {c.buf})
  }

  function Do(q: Queue, op: Op): Queue
    requires Allowed(q, op)
  {
    Queue(MemoryAfter(q, op), PastAfter(q, op))
  }

  // ----- the invariant

  /** Free descriptors and the three descriptors of each chain partition the table. */
  ghost predicate RoleOk(q: Queue, d: nat)
    requires Sized(q.m)
  {
    && (d < NUM ==> (q.m.free[d] <==> d !in q.p.role))
    && (d in q.p.role ==>
          d < NUM && q.p.role[d] in q.p.chains
          && var h := q.p.role[d]; d == h || d == q.p.chains[h].mid || d == q.p.chains[h].last)
  }

  ghost predicate PartsOk(q: Queue, h: nat)
    requires h in q.p.chains
  {
    var c := q.p.chains[h];
    && h in q.p.role && q.p.role[h] == h && c.mid in q.p.role && q.p.role[c.mid] == h
    && c.last in q.p.role && q.p.role[c.last] == h && h != c.mid && h != c.last && c.mid != c.last
  }

  ghost predicate RolesOk(q: Queue)
    requires Sized(q.m)
  {
    && (forall d: nat :: RoleOk(q, d))
    && (forall h :: h in q.p.chains ==> PartsOk(q, h))
  }

  /** A chain in memory is the request it was made for, and b->disk tells whether it has been seen to complete. */
  ghost predicate ChainOk(q: Queue, h: nat)
    requires Sized(q.m) && h in q.p.chains
  {
    var m, c := q.m, q.p.chains[h];
    && h < NUM && c.mid < NUM && c.last < NUM
    && m.desc[h] == Desc(Area.Header(h), true, false, c.mid)
    && m.desc[c.mid] == Desc(Data(c.buf), true, !c.req.write, c.last)
    && m.desc[c.last] == Desc(Status(h), false, true, 0)
    && m.ops[h] == c.req && m.info[h].buf == Some(c.buf)
    && (c.buf in m.disk <==> !c.stage.Seen?)
    && c.buf in q.p.owner && q.p.owner[c.buf] == h
    && (c.stage.Done? ==> m.info[h].status == c.stage.status)
    && (c.stage.Prepared? || c.stage.Posted? || c.stage.Working? ==> m.info[h].status == 0xff)
    && (c.stage.Working? ==> h in q.p.read && q.p.read[h] == Fetched(c.req, c.buf, !c.req.write, h))
  }

  ghost predicate ChainsOk(q: Queue)
    requires Sized(q.m)
  {
    forall h :: h in q.p.chains ==> ChainOk(q, h)
  }

  /** Entry k of all posted requests is in its slot of the avail ring. */
  ghost predicate PostedAt(q: Queue, k: nat)
    requires Sized(q.m) && k < |q.p.posted|
  {
    && q.p.posted[k] in q.p.chains && q.p.chains[q.p.posted[k]].stage == Posted(k)
    && q.m.availRing[k % NUM] == q.p.posted[k]
  }

  ghost predicate DoneAt(q: Queue, k: nat)
    requires Sized(q.m) && k < |q.p.completed|
  {
    && q.p.completed[k] in q.p.chains && q.p.chains[q.p.completed[k]].stage.Done?
    && q.p.chains[q.p.completed[k]].stage.k == k && q.m.usedRing[k % NUM] == q.p.completed[k]
  }

  /** A chain's stage says where it is. */
  ghost predicate StageOk(q: Queue, h: nat)
    requires h in q.p.chains
  {
    match q.p.chains[h].stage
    case Prepared => q.m.locked == Some(h)
    case Posted(k) => q.p.fetched <= k < |q.p.posted| && q.p.posted[k] == h
    case Done(k, status) => q.p.seen <= k < |q.p.completed| && q.p.completed[k] == h
    case _ => true
  }

  ghost predicate LockedOk(q: Queue)
    requires Sized(q.m)
  {
    q.m.locked.Some? ==>
      && q.m.locked.value in q.p.chains && q.p.chains[q.m.locked.value].stage.Prepared?
      && |q.p.posted| - q.p.fetched < NUM && q.m.availRing[|q.p.posted| % NUM] == q.m.locked.value
  }

  /** The wrapped indices are the counts of what was posted, fetched, completed and seen. */
  predicate IndicesOk(q: Queue) {
    var m, p := q.m, q.p;
    && p.fetched <= |p.posted| && m.availIdx == |p.posted| % U16 && m.deviceIdx == p.fetched % U16
    && p.seen <= |p.completed| && m.usedIdx == |p.completed| % U16 && m.driverIdx == p.seen % U16
  }

  /** The rings hold, in order, the heads not yet fetched by the device and not yet seen by the driver. */
  ghost predicate RingsOk(q: Queue)
    requires Sized(q.m)
  {
    && IndicesOk(q)
    && (forall k :: q.p.fetched <= k < |q.p.posted| ==> PostedAt(q, k))
    && (forall k :: q.p.seen <= k < |q.p.completed| ==> DoneAt(q, k))
    && LockedOk(q)
  }

  ghost predicate StagesOk(q: Queue) {
    forall h :: h in q.p.chains ==> StageOk(q, h)
  }

  ghost predicate Invariant(q: Queue) {
    Sized(q.m) && RolesOk(q) && ChainsOk(q) && RingsOk(q) && StagesOk(q)
  }

  // ----- counting

  /** Different numbers below n, none of them x, are fewer than n. */
  lemma Pigeonhole(s: seq<nat>, n: nat, x: nat)
    requires x < n && (forall i :: 0 <= i < |s| ==> s[i] < n && s[i] != x)
    requires forall i, j :: 0 <= i < j < |s| ==> s[i] != s[j]
    ensures |s| < n
  {
    DistinctCount(s);
    var room := Below(n) - {x};
    assert Elements(s) <= room;
    SubsetCount(Elements(s), room);
  }

  ghost function Elements(s: seq<nat>): (r: set<nat>)
    ensures forall d :: d in r <==> d in s
  {
    if s == [] then {} else Elements(s[..|s| - 1]) + {s[|s| - 1]}
  }

  lemma {:induction false} DistinctCount(s: seq<nat>)
    requires forall i, j :: 0 <= i < j < |s| ==> s[i] != s[j]
    ensures |Elements(s)| == |s|
  {
    if s != [] {
      DistinctCount(s[..|s| - 1]);
      assert s[|s| - 1] !in s[..|s| - 1];
    }
  }

  ghost function Below(n: nat): (r: set<nat>)
    ensures |r| == n && forall d :: d in r <==> 0 <= d < n
  {
    if n == 0 then {} else Below(n - 1) + {n - 1}
  }

  lemma SubsetCount<T>(a: set<T>, b: set<T>)
    requires a <= b
    ensures |a| <= |b|
  {
    assert b == a + (b - a);
  }

  /** Requests the device has not fetched are fewer than NUM, if some other chain h is in use or about to be. */
  lemma AvailRoom(q: Queue, h: nat)
    requires Invariant(q) && h < NUM && (h in q.p.chains ==> !q.p.chains[h].stage.Posted?)
    ensures |q.p.posted| - q.p.fetched < NUM
  {
    var p := q.p;
    var s := p.posted[p.fetched..];
    forall i | 0 <= i < |s|
      ensures s[i] in p.chains && p.chains[s[i]].stage == Posted(p.fetched + i) && s[i] < NUM && s[i] != h
    {
      assert s[i] == p.posted[p.fetched + i] && PostedAt(q, p.fetched + i);
      assert ChainOk(q, s[i]);
    }
    Pigeonhole(s, NUM, h);
  }

  lemma UsedRoom(q: Queue, h: nat)
    requires Invariant(q) && h < NUM && (h in q.p.chains ==> !q.p.chains[h].stage.Done?)
    ensures |q.p.completed| - q.p.seen < NUM
  {
    var p := q.p;
    var s := p.completed[p.seen..];
    forall i | 0 <= i < |s|
      ensures s[i] in p.chains && p.chains[s[i]].stage.Done? && p.chains[s[i]].stage.k == p.seen + i && s[i] < NUM
              && s[i] != h
    {
      assert s[i] == p.completed[p.seen + i] && DoneAt(q, p.seen + i);
      assert ChainOk(q, s[i]);
    }
    Pigeonhole(s, NUM, h);
  }

  /** NUM divides 2^16, so a wrapped index still finds its slot. */
  lemma SlotOfIndex(k: nat)
    ensures k % U16 % NUM == k % NUM && (k % U16 + 1) % U16 == (k + 1) % U16
  {
    assert k == U16 * (k / U16) + k % U16;
    assert U16 * (k / U16) == NUM * (8192 * (k / U16));
  }

  lemma SlotsDiffer(a: nat, b: nat)
    requires a < b < a + NUM
    ensures a % NUM != b % NUM
  {
  }

  // ----- every step keeps the invariant

  /** The facts about one chain. */
  lemma Pick(q: Queue, h: nat)
    requires Invariant(q) && h in q.p.chains
    ensures ChainOk(q, h) && PartsOk(q, h) && StageOk(q, h)
  {
    hide ChainOk, PartsOk, StageOk, RingsOk, RoleOk;
  }

  /** The device gets, in the slot it looks at, the oldest head it has not fetched. */
  lemma FetchReads(q: Queue)
    requires Invariant(q) && q.m.deviceIdx != q.m.availIdx
    ensures q.p.fetched < |q.p.posted| && PostedAt(q, q.p.fetched)
    ensures q.m.availRing[q.m.deviceIdx % NUM] == q.p.posted[q.p.fetched]
  {
    hide RolesOk, ChainsOk, StagesOk;
    SlotOfIndex(q.p.fetched);
  }

  /** The driver gets the oldest completed head it has not looked at. */
  lemma IntrReads(q: Queue)
    requires Invariant(q) && q.m.driverIdx != q.m.usedIdx
    ensures q.p.seen < |q.p.completed| && DoneAt(q, q.p.seen)
    ensures q.m.usedRing[q.m.driverIdx % NUM] == q.p.completed[q.p.seen]
  {
    hide RolesOk, ChainsOk, StagesOk;
    SlotOfIndex(q.p.seen);
  }

  lemma StepRole(q: Queue, op: Op, d: nat)
    requires Invariant(q) && Allowed(q, op) && Sized(Do(q, op).m)
    ensures RoleOk(Do(q, op), d)
  {
    hide RingsOk, StagesOk, ChainsOk, Follow, Formatted;
    match op
    case Prepare(buf, req, idx) => PrepareRole(q, buf, req, idx, d);
    case Finish(h) => FinishRole(q, h, d);
    case _ => assert RoleOk(q, d);
  }

  lemma PrepareRole(q: Queue, buf: nat, req: Header, idx: seq<nat>, d: nat)
    requires Invariant(q) && Allowed(q, Prepare(buf, req, idx)) && Sized(Do(q, Prepare(buf, req, idx)).m)
    ensures RoleOk(Do(q, Prepare(buf, req, idx)), d)
  {
    hide ChainsOk, RingsOk, StagesOk, Follow, Formatted;
    assert RoleOk(q, d) && RoleOk(q, idx[0]);
    assert idx[0] in q.p.chains ==> PartsOk(q, idx[0]);
    hide RolesOk;
  }

  lemma FinishRole(q: Queue, h: nat, d: nat)
    requires Invariant(q) && Allowed(q, Finish(h)) && Sized(Do(q, Finish(h)).m)
    ensures RoleOk(Do(q, Finish(h)), d)
  {
    hide ChainsOk, RingsOk, StagesOk, Follow, Formatted;
    assert RoleOk(q, d) && PartsOk(q, h);
    hide RolesOk;
  }

  lemma StepParts(q: Queue, op: Op, h: nat)
    requires Invariant(q) && Allowed(q, op) && h in Do(q, op).p.chains
    ensures PartsOk(Do(q, op), h)
  {
    hide ChainsOk, RingsOk, StagesOk, Follow, Formatted;
    match op
    case Prepare(buf, req, idx) =>
      assert RoleOk(q, idx[0]) && RoleOk(q, idx[1]) && RoleOk(q, idx[2]);
      if h != idx[0] {
        assert PartsOk(q, h);
      }
    case Finish(g) => assert PartsOk(q, h) && PartsOk(q, g);
    case _ => assert PartsOk(q, h);
  }

  lemma StepSized(q: Queue, op: Op)
    requires Invariant(q) && Allowed(q, op)
    ensures Sized(Do(q, op).m)
  {
    hide RolesOk, ChainsOk, RingsOk, StagesOk;
  }

  lemma StepChain(q: Queue, op: Op, h: nat)
    requires Invariant(q) && Allowed(q, op) && Sized(Do(q, op).m) && h in Do(q, op).p.chains
    ensures ChainOk(Do(q, op), h)
  {
    hide RolesOk, ChainsOk, RingsOk, StagesOk, Invariant, Do;
    match op
    case Prepare(buf, req, idx) => PrepareChain(q, buf, req, idx, h);
    case Finish(g) => FinishChain(q, g, h);
    case Complete(g, status) => CompleteChain(q, g, status, h);
    case Intr => IntrChain(q, h);
    case Fetch => FetchChain(q, h);
    case Publish => PublishChain(q, h);
  }

  lemma PrepareChain(q: Queue, buf: nat, req: Header, idx: seq<nat>, h: nat)
    requires Invariant(q) && Allowed(q, Prepare(buf, req, idx)) && Sized(Do(q, Prepare(buf, req, idx)).m)
    requires h in Do(q, Prepare(buf, req, idx)).p.chains
    ensures ChainOk(Do(q, Prepare(buf, req, idx)), h)
  {
    hide RingsOk, StagesOk, ChainsOk, Follow;
    if h != idx[0] {
      Pick(q, h);
      assert RoleOk(q, idx[0]) && RoleOk(q, idx[1]) && RoleOk(q, idx[2]);
      hide RolesOk, RoleOk;
    }
  }

  lemma FinishChain(q: Queue, g: nat, h: nat)
    requires Invariant(q) && Allowed(q, Finish(g)) && Sized(Do(q, Finish(g)).m) && h in Do(q, Finish(g)).p.chains
    ensures ChainOk(Do(q, Finish(g)), h)
  {
    hide RingsOk, StagesOk, ChainsOk, RolesOk, Follow, StageOk;
    Pick(q, h);
    Pick(q, g);
  }

  lemma CompleteChain(q: Queue, g: nat, status: nat, h: nat)
    requires Invariant(q) && Allowed(q, Complete(g, status)) && Sized(Do(q, Complete(g, status)).m)
             && h in Do(q, Complete(g, status)).p.chains
    ensures ChainOk(Do(q, Complete(g, status)), h)
  {
    hide RingsOk, StagesOk, ChainsOk, RolesOk, Follow, StageOk, PartsOk;
    Pick(q, h);
    Pick(q, g);
  }

  lemma IntrChain(q: Queue, h: nat)
    requires Invariant(q) && Allowed(q, Intr) && Sized(Do(q, Intr).m) && h in Do(q, Intr).p.chains
    ensures ChainOk(Do(q, Intr), h)
  {
    hide RingsOk, StagesOk, ChainsOk, RolesOk, Follow, StageOk, PartsOk;
    IntrReads(q);
    Pick(q, h);
    Pick(q, q.p.completed[q.p.seen]);
  }

  lemma FetchChain(q: Queue, h: nat)
    requires Invariant(q) && Allowed(q, Fetch) && Sized(Do(q, Fetch).m) && h in Do(q, Fetch).p.chains
    ensures ChainOk(Do(q, Fetch), h)
  {
    hide RingsOk, StagesOk, ChainsOk, RolesOk, StageOk, PartsOk;
    FetchReads(q);
    Pick(q, h);
  }

  lemma PublishChain(q: Queue, h: nat)
    requires Invariant(q) && Allowed(q, Publish) && Sized(Do(q, Publish).m) && h in Do(q, Publish).p.chains
    ensures ChainOk(Do(q, Publish), h)
  {
    hide StagesOk, ChainsOk, RolesOk, Follow, StageOk, PartsOk;
    Pick(q, h);
  }

  lemma StepStage(q: Queue, op: Op, h: nat)
    requires Invariant(q) && Allowed(q, op) && h in Do(q, op).p.chains
    ensures StageOk(Do(q, op), h)
  {
    hide RolesOk, ChainsOk, StagesOk, Follow, Formatted, PartsOk, ChainOk;
    if h in q.p.chains {
      Pick(q, h);
    }
    match op
    case Fetch => FetchReads(q);
    case Intr => IntrReads(q);
    case _ =>
  }

  // ----- the rings

  lemma StepIndices(q: Queue, op: Op)
    requires Invariant(q) && Allowed(q, op)
    ensures IndicesOk(Do(q, op))
  {
    hide RolesOk, ChainsOk, StagesOk, Follow, Formatted, LockedOk;
    SlotOfIndex(|q.p.posted|);
    SlotOfIndex(q.p.fetched);
    SlotOfIndex(|q.p.completed|);
    SlotOfIndex(q.p.seen);
    match op
    case Fetch => FetchReads(q);
    case Intr => IntrReads(q);
    case _ =>
  }

  lemma StepPosted(q: Queue, op: Op, k: nat)
    requires Invariant(q) && Allowed(q, op) && Sized(Do(q, op).m) && Do(q, op).p.fetched <= k < |Do(q, op).p.posted|
    ensures PostedAt(Do(q, op), k)
  {
    hide RolesOk, ChainsOk, StagesOk, Follow, Formatted;
    SlotOfIndex(|q.p.posted|);
    match op
    case Prepare(buf, req, idx) =>
      NewHead(q, buf, req, idx);
      AvailRoom(q, idx[0]);
      assert PostedAt(q, k);
      SlotsDiffer(k, |q.p.posted|);
    case Publish =>
      if k < |q.p.posted| {
        assert PostedAt(q, k);
      }
    case Fetch =>
      FetchReads(q);
      assert PostedAt(q, k);
    case Complete(h, status) => assert PostedAt(q, k);
    case Intr =>
      IntrReads(q);
      assert PostedAt(q, k);
    case Finish(h) =>
      assert PostedAt(q, k);
      Pick(q, h);
  }

  lemma NewHead(q: Queue, buf: nat, req: Header, idx: seq<nat>)
    requires Invariant(q) && Allowed(q, Prepare(buf, req, idx))
    ensures idx[0] !in q.p.chains
  {
    hide ChainsOk, RingsOk, StagesOk;
    assert RoleOk(q, idx[0]);
    assert idx[0] in q.p.chains ==> PartsOk(q, idx[0]);
  }

  lemma StepDone(q: Queue, op: Op, k: nat)
    requires Invariant(q) && Allowed(q, op) && Sized(Do(q, op).m) && Do(q, op).p.seen <= k < |Do(q, op).p.completed|
    ensures DoneAt(Do(q, op), k)
  {
    hide RolesOk, ChainsOk, StagesOk, Follow, Formatted;
    SlotOfIndex(|q.p.completed|);
    match op
    case Prepare(buf, req, idx) =>
      NewHead(q, buf, req, idx);
      assert DoneAt(q, k);
    case Publish => assert DoneAt(q, k);
    case Fetch =>
      FetchReads(q);
      assert DoneAt(q, k);
    case Complete(h, status) =>
      if k < |q.p.completed| {
        Pick(q, h);
        UsedRoom(q, h);
        assert DoneAt(q, k);
        SlotsDiffer(k, |q.p.completed|);
      }
    case Intr =>
      IntrReads(q);
      assert DoneAt(q, k);
    case Finish(h) =>
      assert DoneAt(q, k);
      Pick(q, h);
  }

  lemma StepLocked(q: Queue, op: Op)
    requires Invariant(q) && Allowed(q, op) && Sized(Do(q, op).m)
    ensures LockedOk(Do(q, op))
  {
    hide RolesOk, ChainsOk, StagesOk, Follow, Formatted;
    SlotOfIndex(|q.p.posted|);
    match op
    case Prepare(buf, req, idx) =>
      NewHead(q, buf, req, idx);
      AvailRoom(q, idx[0]);
    case Fetch => FetchReads(q);
    case Complete(h, status) =>
    case _ =>
  }

  lemma StepKeeps(q: Queue, op: Op)
    requires Invariant(q) && Allowed(q, op)
    ensures Invariant(Do(q, op))
  {
    hide Do, RoleOk, PartsOk, ChainOk, StageOk, PostedAt, DoneAt, LockedOk, IndicesOk, Allowed;
    var q' := Do(q, op);
    StepSized(q, op);
    forall d: nat ensures RoleOk(q', d) { StepRole(q, op, d); }
    forall h | h in q'.p.chains ensures PartsOk(q', h) && ChainOk(q', h) && StageOk(q', h) {
      StepParts(q, op, h);
      StepChain(q, op, h);
      StepStage(q, op, h);
    }
    StepIndices(q, op);
    forall k: nat | q'.p.fetched <= k < |q'.p.posted| ensures PostedAt(q', k) { StepPosted(q, op, k); }
    forall k: nat | q'.p.seen <= k < |q'.p.completed| ensures DoneAt(q', k) { StepDone(q, op, k); }
    StepLocked(q, op);
  }

  /** A step moves a request on to its next stage, or leaves it where it is; only Finish takes it away. */
  lemma ChainStays(q: Queue, op: Op, h: nat)
    requires Invariant(q) && Allowed(q, op) && h in q.p.chains && op != Finish(h)
    ensures h in Do(q, op).p.chains
    ensures var c, c' := q.p.chains[h], Do(q, op).p.chains[h];
            && c' == c.(stage := c'.stage)
            && match c'.stage
               case Prepared => c.stage.Prepared?
               case Posted(_) => c.stage.Prepared? || c.stage == c'.stage
               case Working => c.stage.Posted? || c.stage.Working?
               case Done(_, status) => (op == Complete(h, status) && c.stage.Working?) || c.stage == c'.stage
               case Seen => c.stage.Seen? || (c.stage.Done? && c.stage.status == 0)
  {
    hide StagesOk, RolesOk, ChainsOk, RingsOk, Follow, Formatted;
    match op
    case Prepare(buf, req, idx) => NewHead(q, buf, req, idx);
    case Publish => PostedWasPrepared(q);
    case Fetch => FetchedWasPosted(q);
    case Intr => SeenWasDone(q);
    case _ =>
  }

  lemma FetchedWasPosted(q: Queue)
    requires Invariant(q) && Allowed(q, Fetch)
    ensures q.p.chains[q.m.availRing[q.m.deviceIdx % NUM]].stage.Posted?
  {
    hide StagesOk, RolesOk, ChainsOk, Follow;
    FetchReads(q);
  }

  lemma PostedWasPrepared(q: Queue)
    requires Invariant(q) && Allowed(q, Publish)
    ensures q.p.chains[q.m.locked.value].stage.Prepared?
  {
    hide StagesOk, RolesOk, ChainsOk;
  }

  lemma SeenWasDone(q: Queue)
    requires Invariant(q) && Allowed(q, Intr)
    ensures var c := q.p.chains[q.m.usedRing[q.m.driverIdx % NUM]]; c.stage.Done? && c.stage.status == 0
  {
    hide StagesOk, RolesOk, ChainsOk, RingsOk;
    IntrReads(q);
    Pick(q, q.p.completed[q.p.seen]);
  }

  /** Only Prepare makes a request, under a head that is not in use. */
  lemma NewChain(q: Queue, op: Op, h: nat)
    requires Invariant(q) && Allowed(q, op) && h !in q.p.chains && h in Do(q, op).p.chains
    ensures op.Prepare? && op.idx[0] == h && Do(q, op).p.chains[h].buf == op.buf
    ensures Do(q, op).p.chains[h].req == op.req && Do(q, op).p.chains[h].stage.Prepared?
    ensures Do(q, op).m.locked == Some(h)
  {
    hide StagesOk, RolesOk, ChainsOk, RingsOk, Follow, Formatted;
  }

  // ----- runs

  ghost predicate Legal(q: Queue, ops: seq<Op>)
    decreases |ops|, 0
  {
    ops == [] || (Legal(q, ops[..|ops| - 1]) && Allowed(After(q, ops[..|ops| - 1]), ops[|ops| - 1]))
  }

  ghost function After(q: Queue, ops: seq<Op>): Queue
    requires Legal(q, ops)
    decreases |ops|, 1
  {
    if ops == [] then q else Do(After(q, ops[..|ops| - 1]), ops[|ops| - 1])
  }

  /** virtio_disk_init */
  ghost predicate Boot(q: Queue) {
    && Sized(q.m) && (forall d :: 0 <= d < NUM ==> q.m.free[d])
    && q.m.availIdx == q.m.usedIdx == q.m.driverIdx == q.m.deviceIdx == 0 && q.m.disk == {} && q.m.locked == None
    && q.p == Past(map[], map[], map[], [], 0, [], 0, map[])
  }

  lemma {:induction false} RunKeeps(q: Queue, ops: seq<Op>)
    requires Boot(q) && Legal(q, ops)
    ensures Invariant(After(q, ops))
    decreases |ops|
  {
    if ops != [] {
      RunKeeps(q, ops[..|ops| - 1]);
      StepKeeps(After(q, ops[..|ops| - 1]), ops[|ops| - 1]);
    }
  }

  /** On every run a descriptor is free, or it is one of the three of exactly one chain in flight. */
  lemma DescriptorsPartitioned(q: Queue, ops: seq<Op>, d: nat, g: nat, h: nat)
    requires Boot(q) && Legal(q, ops) && d < NUM && d < |After(q, ops).m.free|
    requires g in After(q, ops).p.chains && h in After(q, ops).p.chains
    ensures var z := After(q, ops);
            && (After(q, ops).m.free[d] <==> d !in z.p.role)
            && (d in z.p.role ==> z.p.role[d] in z.p.chains)
            && (IsPart(z, d, g) ==> d in z.p.role && z.p.role[d] == g)
            && (IsPart(z, d, g) && IsPart(z, d, h) ==> g == h)
  {
    RunKeeps(q, ops);
    var z := After(q, ops);
    assert RoleOk(z, d);
    Pick(z, g);
    Pick(z, h);
  }

  predicate IsPart(q: Queue, d: nat, h: nat)
    requires h in q.p.chains
  {
    d == h || d == q.p.chains[h].mid || d == q.p.chains[h].last
  }

  /**
   On every run, what the device reads from the avail ring is a complete chain for the oldest request it has not
   fetched.
   */
  lemma DeviceReadsRequest(q: Queue, ops: seq<Op>)
    requires Boot(q) && Legal(q, ops) && After(q, ops).m.deviceIdx != After(q, ops).m.availIdx && Sized(After(q, ops).m)
    ensures var z := After(q, ops);
            && z.p.fetched < |z.p.posted|
            && var h := z.p.posted[z.p.fetched];
            && z.m.availRing[z.m.deviceIdx % NUM] == h && h in z.p.chains
            && var c := z.p.chains[h];
            Follow(z.m, h) == Some(Fetched(c.req, c.buf, !c.req.write, h))
  {
    RunKeeps(q, ops);
    var z := After(q, ops);
    FetchReads(z);
    Pick(z, z.p.posted[z.p.fetched]);
  }

  /**
   On every run, the entry the interrupt handler looks at is a chain that the device has completed; it
   clears b->disk for exactly the buffer of that chain, and panics exactly if the device reported a failure.
   */
  lemma CompletionClearsItsBuffer(q: Queue, ops: seq<Op>)
    requires Boot(q) && Legal(q, ops) && After(q, ops).m.driverIdx != After(q, ops).m.usedIdx && Sized(After(q, ops).m)
    requires After(q, ops).m.locked == None
    ensures var z := After(q, ops);
            && z.p.seen < |z.p.completed|
            && var h := z.p.completed[z.p.seen];
            && z.m.usedRing[z.m.driverIdx % NUM] == h && h in z.p.chains && z.p.chains[h].stage.Done?
            && h < NUM && z.m.info[h].buf == Some(z.p.chains[h].buf) && z.p.chains[h].buf in z.m.disk
            && (Allowed(z, Intr) <==> z.p.chains[h].stage.status == 0)
            && (Allowed(z, Intr) ==> Do(z, Intr).m.disk == z.m.disk - {z.p.chains[h].buf})
  {
    RunKeeps(q, ops);
    var z := After(q, ops);
    IntrReads(z);
    Pick(z, z.p.completed[z.p.seen]);
    hide Invariant;
  }

  /**
   On every run, when b->disk is clear its chain is a chain for free_chain, which frees exactly its three descriptors
   without a panic.
   */
  lemma FinishFreesChain(q: Queue, ops: seq<Op>, h: nat)
    requires Boot(q) && Legal(q, ops) && Allowed(After(q, ops), Finish(h))
    ensures var z, z' := After(q, ops), Do(After(q, ops), Finish(h));
            var ids := [h, z.p.chains[h].mid, z.p.chains[h].last];
            && z.p.chains[h].stage == Seen && IsChain(z.m.free, z.m.desc, ids)
            && Freed(z.m.free, ids, z'.m.free) && Wiped(z.m.desc, ids, z'.m.desc)
            && h < |z'.m.info| && z'.m.info[h].buf == None
  {
    RunKeeps(q, ops);
    var z := After(q, ops);
    hide IsChain, Freed, Wiped, ChainsOk, RingsOk, StagesOk;
    Pick(z, h);
    assert RoleOk(z, h) && RoleOk(z, z.p.chains[h].mid) && RoleOk(z, z.p.chains[h].last);
    hide Invariant, After, Legal;
    ChainToFree(z, h);
    ChainIsFreed(z, h);
  }

  lemma ChainToFree(z: Queue, h: nat)
    requires Sized(z.m) && h in z.p.chains && ChainOk(z, h) && PartsOk(z, h)
    requires RoleOk(z, h) && RoleOk(z, z.p.chains[h].mid) && RoleOk(z, z.p.chains[h].last)
    ensures IsChain(z.m.free, z.m.desc, [h, z.p.chains[h].mid, z.p.chains[h].last])
  {
  }

  lemma ChainIsFreed(z: Queue, h: nat)
    requires Allowed(z, Finish(h))
    ensures var ids, z' := [h, z.p.chains[h].mid, z.p.chains[h].last], Do(z, Finish(h));
            Freed(z.m.free, ids, z'.m.free) && Wiped(z.m.desc, ids, z'.m.desc)
  {
  }

  /**
   On every run each request in flight can be moved on: the driver can post it, the device can fetch it when it is the
   oldest posted one and then complete it with any status, and when vdisk_lock is free the driver can look at it when it
   is the oldest completed one, unless the device reported a failure, and then give its descriptors back.
   */
  lemma NothingStuck(q: Queue, ops: seq<Op>, h: nat, status: nat)
    requires Boot(q) && Legal(q, ops) && h in After(q, ops).p.chains
    ensures var z := After(q, ops);
            match z.p.chains[h].stage
            case Prepared => Allowed(z, Publish)
            case Posted(k) => z.p.fetched <= k && (k == z.p.fetched ==> Allowed(z, Fetch))
            case Working => Allowed(z, Complete(h, status))
            case Done(k, s) => z.p.seen <= k && (k == z.p.seen && z.m.locked == None ==> (Allowed(z, Intr) <==> s == 0))
            case Seen => z.m.locked == None ==> Allowed(z, Finish(h))
  {
    RunKeeps(q, ops);
    var z := After(q, ops);
    hide Legal, After, Boot;
    StageMoves(z, h, status);
  }

  lemma StageMoves(z: Queue, h: nat, status: nat)
    requires Invariant(z) && h in z.p.chains
    ensures match z.p.chains[h].stage
            case Prepared => Allowed(z, Publish)
            case Posted(k) => z.p.fetched <= k && (k == z.p.fetched ==> Allowed(z, Fetch))
            case Working => Allowed(z, Complete(h, status))
            case Done(k, s) => z.p.seen <= k && (k == z.p.seen && z.m.locked == None ==> (Allowed(z, Intr) <==> s == 0))
            case Seen => z.m.locked == None ==> Allowed(z, Finish(h))
  {
    Pick(z, h);
    match z.p.chains[h].stage
    case Posted(k) =>
      if k == z.p.fetched {
        AvailBound(z);
        IndexDiffers(k, |z.p.posted|);
        FetchReads(z);
      }
    case Done(k, s) =>
      if k == z.p.seen {
        UsedBound(z);
        IndexDiffers(k, |z.p.completed|);
        IntrReads(z);
      }
    case _ =>
  }

  ghost predicate OwnerHasChain(q: Queue, buf: nat) {
    buf in q.p.owner ==> q.p.owner[buf] in q.p.chains && q.p.chains[q.p.owner[buf]].buf == buf
  }

  lemma StepOwner(q: Queue, op: Op, buf: nat)
    requires Invariant(q) && Allowed(q, op) && OwnerHasChain(q, buf)
    ensures OwnerHasChain(Do(q, op), buf)
  {
    hide RolesOk, ChainsOk, RingsOk, StagesOk, Follow, Formatted;
    if buf in q.p.owner && op != Finish(q.p.owner[buf]) {
      ChainStays(q, op, q.p.owner[buf]);
    }
  }

  lemma {:induction false} OwnersHaveChains(q: Queue, ops: seq<Op>, buf: nat)
    requires Boot(q) && Legal(q, ops)
    ensures OwnerHasChain(After(q, ops), buf)
    decreases |ops|
  {
    if ops != [] {
      OwnersHaveChains(q, ops[..|ops| - 1], buf);
      RunKeeps(q, ops[..|ops| - 1]);
      hide Invariant, Boot, Do, Allowed, OwnerHasChain;
      StepOwner(After(q, ops[..|ops| - 1]), ops[|ops| - 1], buf);
    }
  }

  /** With vdisk_lock free, any three free descriptors will do for a buffer that has no request in flight. */
  lemma CanPrepare(q: Queue, ops: seq<Op>, buf: nat, req: Header, i: nat, j: nat, l: nat)
    requires Boot(q) && Legal(q, ops) && After(q, ops).m.locked == None
    requires (forall h :: h in After(q, ops).p.chains ==> After(q, ops).p.chains[h].buf != buf)
    requires i < j < l < |After(q, ops).m.free|
    requires After(q, ops).m.free[i] && After(q, ops).m.free[j] && After(q, ops).m.free[l]
    ensures Allowed(After(q, ops), Prepare(buf, req, [i, j, l])) && Allowed(After(q, ops), Prepare(buf, req, [l, i, j]))
  {
    RunKeeps(q, ops);
    var z := After(q, ops);
    OwnersHaveChains(q, ops, buf);
    hide Legal, After, Boot, RolesOk, ChainsOk, RingsOk, StagesOk;
  }

  /** The wrapped 16-bit indices differ exactly if there is something to fetch or to look at. */
  lemma WrappedIndices(q: Queue, ops: seq<Op>)
    requires Boot(q) && Legal(q, ops)
    ensures var z := After(q, ops);
            && (z.m.deviceIdx != z.m.availIdx <==> z.p.fetched < |z.p.posted|)
            && (z.m.driverIdx != z.m.usedIdx <==> z.p.seen < |z.p.completed|)
  {
    RunKeeps(q, ops);
    var z := After(q, ops);
    AvailBound(z);
    UsedBound(z);
    IndexDiffers(z.p.fetched, |z.p.posted|);
    IndexDiffers(z.p.seen, |z.p.completed|);
  }

  lemma AvailBound(q: Queue)
    requires Invariant(q)
    ensures |q.p.posted| - q.p.fetched <= NUM
  {
    var s := q.p.posted[q.p.fetched..];
    forall i | 0 <= i < |s|
      ensures s[i] in q.p.chains && q.p.chains[s[i]].stage == Posted(q.p.fetched + i) && s[i] < NUM
    {
      assert PostedAt(q, q.p.fetched + i) && ChainOk(q, s[i]);
    }
    Pigeonhole(s, NUM + 1, NUM);
  }

  lemma UsedBound(q: Queue)
    requires Invariant(q)
    ensures |q.p.completed| - q.p.seen <= NUM
  {
    var s := q.p.completed[q.p.seen..];
    forall i | 0 <= i < |s|
      ensures s[i] in q.p.chains && q.p.chains[s[i]].stage.Done? && q.p.chains[s[i]].stage.k == q.p.seen + i
              && s[i] < NUM
    {
      assert DoneAt(q, q.p.seen + i) && ChainOk(q, s[i]);
    }
    Pigeonhole(s, NUM + 1, NUM);
  }

  lemma IndexDiffers(a: nat, b: nat)
    requires a <= b < a + U16
    ensures a % U16 == b % U16 <==> a == b
  {
  }
}
