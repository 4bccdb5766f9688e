/**
 kernel/bio.c: the buffer cache. The ring of buffers is kept in next and prev,
 most recently released first; the index one past the buffers is bcache.head.
 Blocks of the disk are named by device and block number.
 */
module Bio {
  import opened Blocks
  import opened Common

  datatype Key = Key(dev: nat, blockno: nat)

  /** struct buf without its links; locked: some process holds the buffer's sleep-lock. */
  datatype Buf = Buf(key: Key, valid: bool, refcnt: nat, locked: bool, data: Block)

  // ----- the ring

  function Succ(ring: seq<nat>, k: nat): nat
    requires k < |ring|
  {
    if k + 1 < |ring| then ring[k + 1] else ring[0]
  }

  /** Following next from ring[0] visits ring in order and returns, and prev undoes next. */
  ghost predicate Linked(next: seq<nat>, prev: seq<nat>, ring: seq<nat>) {
    && |next| == |prev| && ring != [] && Distinct(ring)
    && (forall k :: 0 <= k < |ring| ==> ring[k] < |next|)
    && (forall k :: 0 <= k < |ring| ==> next[ring[k]] == Succ(ring, k) && prev[Succ(ring, k)] == ring[k])
  }

  /** The ring holds every index below n exactly once. */
  ghost predicate Covers(ring: seq<nat>, n: nat) {
    && |ring| == n && Distinct(ring)
    && (forall k :: 0 <= k < |ring| ==> ring[k] < n)
    && (forall b :: 0 <= b < n ==> b in ring)
  }

  function Without(ring: seq<nat>, at: nat): seq<nat>
    requires at < |ring|
  {
    ring[..at] + ring[at + 1..]
  }

  function WithFront(ring: seq<nat>, b: nat): seq<nat>
    requires ring != []
  {
    [ring[0], b] + ring[1..]
  }

  /** Where the successor of ring[k] is. */
  lemma SuccAt(ring: seq<nat>, k: nat)
    requires k < |ring|
    ensures Succ(ring, k) == ring[if k + 1 < |ring| then k + 1 else 0]
  {
  }

  lemma LinksAt(next: seq<nat>, prev: seq<nat>, ring: seq<nat>, k: nat)
    requires Linked(next, prev, ring) && k < |ring|
    ensures |prev| == |next| && ring[k] < |next| && Succ(ring, k) < |next| && next[ring[k]] == Succ(ring, k)
            && prev[Succ(ring, k)] == ring[k]
  {
    SuccAt(ring, k);
  }

  lemma SuccDiffers(ring: seq<nat>, j: nat, k: nat)
    requires Distinct(ring) && j < |ring| && k < |ring| && j != k
    ensures Succ(ring, j) != Succ(ring, k) && ring[j] != ring[k]
  {
  }

  /** Taking a buffer out of the ring: its two neighbours are made to point at each other. */
  lemma UnlinkKeeps(next: seq<nat>, prev: seq<nat>, ring: seq<nat>, at: nat)
    requires Linked(next, prev, ring) && 1 <= at < |ring|
    ensures ring[at] < |next| && next[ring[at]] < |prev| && prev[ring[at]] < |next|
    ensures var b := ring[at]; Linked(next[prev[b] := next[b]], prev[next[b] := prev[b]], Without(ring, at))
  {
    var b := ring[at];
    var less := Without(ring, at);
    LinksAt(next, prev, ring, at - 1);
    LinksAt(next, prev, ring, at);
    var next', prev' := next[prev[b] := next[b]], prev[next[b] := prev[b]];
    forall k | 0 <= k < |less|
      ensures less[k] < |next| && next'[less[k]] == Succ(less, k) && prev'[Succ(less, k)] == less[k]
    {
      UnlinkAt(next, prev, ring, at, k);
    }
    hide Linked, Succ;
    WithoutDistinct(ring, at);
  }

  lemma WithoutDistinct(ring: seq<nat>, at: nat)
    requires Distinct(ring) && at < |ring|
    ensures Distinct(Without(ring, at)) && ring[at] !in Without(ring, at)
  {
  }

  lemma UnlinkAt(next: seq<nat>, prev: seq<nat>, ring: seq<nat>, at: nat, k: nat)
    requires Linked(next, prev, ring) && 1 <= at < |ring| && k < |ring| - 1
    requires ring[at] < |next| && next[ring[at]] < |prev| && prev[ring[at]] < |next|
    ensures var b, less := ring[at], Without(ring, at);
            && less[k] < |next| && Succ(less, k) < |prev|
            && next[prev[b] := next[b]][less[k]] == Succ(less, k) && prev[next[b] := prev[b]][Succ(less, k)] == less[k]
  {
    hide Linked, Succ, Without, Distinct;
    var j := if k < at then k else k + 1;
    SuccWithout(ring, at, k);
    LinksAt(next, prev, ring, at - 1);
    LinksAt(next, prev, ring, at);
    LinksAt(next, prev, ring, j);
    if k != at - 1 {
      LinkedDiffers(next, prev, ring, j, at);
      LinkedDiffers(next, prev, ring, j, at - 1);
    }
  }

  lemma SuccWithout(ring: seq<nat>, at: nat, k: nat)
    requires 1 <= at < |ring| && k < |ring| - 1
    ensures var less, j := Without(ring, at), if k < at then k else k + 1;
            && |less| == |ring| - 1 && less[k] == ring[j] && Succ(ring, at - 1) == ring[at]
            && Succ(less, k) == Succ(ring, if k == at - 1 then at else j)
  {
  }

  lemma LinkedDiffers(next: seq<nat>, prev: seq<nat>, ring: seq<nat>, j: nat, k: nat)
    requires Linked(next, prev, ring) && j < |ring| && k < |ring| && j != k
    ensures Succ(ring, j) != Succ(ring, k) && ring[j] != ring[k]
  {
    SuccDiffers(ring, j, k);
  }

  /** Putting a buffer at the front: it is linked between the head and the buffer that was first. */
  lemma PushFrontKeeps(next: seq<nat>, prev: seq<nat>, ring: seq<nat>, b: nat)
    requires Linked(next, prev, ring) && b < |next| && b !in ring
    ensures ring[0] < |next| && next[ring[0]] < |prev|
    ensures var h := ring[0]; Linked(next[b := next[h]][h := b], prev[b := h][next[h] := b], WithFront(ring, b))
  {
    var h := ring[0];
    var more := WithFront(ring, b);
    LinksAt(next, prev, ring, 0);
    SuccAt(ring, 0);
    var next', prev' := next[b := next[h]][h := b], prev[b := h][next[h] := b];
    forall k | 0 <= k < |more|
      ensures more[k] < |next| && next'[more[k]] == Succ(more, k) && prev'[Succ(more, k)] == more[k]
    {
      PushFrontAt(next, prev, ring, b, k);
    }
  }

  lemma PushFrontAt(next: seq<nat>, prev: seq<nat>, ring: seq<nat>, b: nat, k: nat)
    requires Linked(next, prev, ring) && b < |next| && b !in ring && k <= |ring|
    requires ring[0] < |next| && next[ring[0]] < |prev|
    ensures var h, more := ring[0], WithFront(ring, b);
            && more[k] < |next| && Succ(more, k) < |prev|
            && next[b := next[h]][h := b][more[k]] == Succ(more, k)
               && prev[b := h][next[h] := b][Succ(more, k)] == more[k]
  {
    LinksAt(next, prev, ring, 0);
    SuccAt(ring, 0);
    if k >= 2 {
      PushFrontBehind(next, prev, ring, b, k);
    }
  }

  /** Behind the new buffer nothing changes. */
  lemma PushFrontBehind(next: seq<nat>, prev: seq<nat>, ring: seq<nat>, b: nat, k: nat)
    requires Linked(next, prev, ring) && b < |next| && b !in ring && 2 <= k <= |ring|
    requires ring[0] < |next| && next[ring[0]] < |prev|
    ensures var h, more := ring[0], WithFront(ring, b);
            && more[k] < |next| && Succ(more, k) < |prev|
            && next[b := next[h]][h := b][more[k]] == Succ(more, k)
            && prev[b := h][next[h] := b][Succ(more, k)] == more[k]
  {
    LinksAt(next, prev, ring, 0);
    LinksAt(next, prev, ring, k - 1);
    LinkedDiffers(next, prev, ring, 0, k - 1);
    SuccAt(ring, k - 1);
    hide Linked;
    assert ring[k - 1] in ring && Succ(ring, k - 1) in ring;
    assert WithFront(ring, b)[k] == ring[k - 1] && Succ(WithFront(ring, b), k) == Succ(ring, k - 1);
  }

  /** brelse's six assignments put the buffer right behind the head. */
  ghost predicate Moved(next: seq<nat>, prev: seq<nat>, ring: seq<nat>, at: nat) {
    && 1 <= at < |ring|
    && var b, h := ring[at], ring[0];
    && b < |next| == |prev| && next[b] < |prev| && prev[b] < |next| && h < |next|
    && var next1, prev1 := next[prev[b] := next[b]], prev[next[b] := prev[b]];
    && next1[h] < |prev1|
    && Linked(next1[b := next1[h]][h := b], prev1[b := h][next1[h] := b], WithFront(Without(ring, at), b))
    && Covers(WithFront(Without(ring, at), b), |next|)
  }

  lemma MoveKeeps(next: seq<nat>, prev: seq<nat>, ring: seq<nat>, at: nat)
    requires Linked(next, prev, ring) && Covers(ring, |next|) && 1 <= at < |ring|
    ensures Moved(next, prev, ring, at)
  {
    UnlinkKeeps(next, prev, ring, at);
    var b := ring[at];
    var less := Without(ring, at);
    WithoutDistinct(ring, at);
    assert less[0] == ring[0];
    var next1, prev1 := next[prev[b] := next[b]], prev[next[b] := prev[b]];
    PushFrontKeeps(next1, prev1, less, b);
    hide Linked;
    MoveCovers(ring, at);
  }

  lemma MoveCovers(ring: seq<nat>, at: nat)
    requires Covers(ring, |ring|) && 1 <= at < |ring|
    ensures Covers(WithFront(Without(ring, at), ring[at]), |ring|)
  {
    var more := WithFront(Without(ring, at), ring[at]);
    forall k | 0 <= k < |more|
      ensures more[k] == if k == 0 then ring[0] else if k == 1 then ring[at]
                         else if k <= at then ring[k - 1] else ring[k]
    {
    }
    forall b | 0 <= b < |ring|
      ensures b in more
    {
      assert b in ring;
      var k :| 0 <= k < |ring| && ring[k] == b;
      assert more[if k == 0 then 0 else if k == at then 1 else if k < at then k + 1 else k] == b;
    }
  }

  // ----- contents

  /** No block is in two buffers. (Buffers that were never used all have device 0, which is not asked for.) */
  ghost predicate Unique(bufs: seq<Buf>) {
    forall i, j :: 0 <= i < j < |bufs| && bufs[i].key == bufs[j].key ==> bufs[i].key.dev == 0
  }

  /** A valid buffer holds a block of the disk, and the very block if nobody uses it. */
  predicate BufOk(b: Buf, disk: map<Key, Block>) {
    && (b.valid ==> b.key in disk)
    && (b.valid && b.refcnt == 0 ==> b.data == disk[b.key])
    && (b.locked ==> b.refcnt > 0)
  }

  ghost predicate BufsOk(bufs: seq<Buf>, disk: map<Key, Block>) {
    && Unique(bufs) && (forall i :: 0 <= i < |bufs| ==> BufOk(bufs[i], disk))
    && forall k :: k in disk ==> k.dev != 0
  }

  ghost predicate Cached(bufs: seq<Buf>, k: Key) {
    exists i :: 0 <= i < |bufs| && bufs[i].key == k && bufs[i].valid
  }

  /** What a client finds in block k: the cached contents if there are any, and the disk's otherwise. */
  ghost function View(bufs: seq<Buf>, disk: map<Key, Block>, k: Key): Block
    requires k in disk
  {
    if Cached(bufs, k) then
      var i :| 0 <= i < |bufs| && bufs[i].key == k && bufs[i].valid;
      bufs[i].data
    else disk[k]
  }

  lemma ViewIs(bufs: seq<Buf>, disk: map<Key, Block>, k: Key, i: nat)
    requires BufsOk(bufs, disk) && k in disk && i < |bufs| && bufs[i].key == k && bufs[i].valid
    ensures View(bufs, disk, k) == bufs[i].data
  {
    var j :| 0 <= j < |bufs| && bufs[j].key == k && bufs[j].valid && View(bufs, disk, k) == bufs[j].data;
    OnlyOne(bufs, i, j);
  }

  lemma OnlyOne(bufs: seq<Buf>, i: nat, j: nat)
    requires Unique(bufs) && i < |bufs| && j < |bufs| && bufs[i].key == bufs[j].key && bufs[i].key.dev != 0
    ensures i == j
  {
  }

  /** No client can see a difference. */
  ghost predicate SameView(bufs: seq<Buf>, disk: map<Key, Block>, bufs': seq<Buf>, disk': map<Key, Block>) {
    disk'.Keys == disk.Keys && forall k :: k in disk ==> View(bufs', disk', k) == View(bufs, disk, k)
  }

  /** Changing one buffer, with its key and validity the same, changes the view of its own block only. */
  lemma ViewUpdate(bufs: seq<Buf>, disk: map<Key, Block>, i: nat, b: Buf, k: Key)
    requires BufsOk(bufs, disk) && i < |bufs| && b.key == bufs[i].key && b.valid == bufs[i].valid && k in disk
    requires BufsOk(bufs[i := b], disk)
    ensures View(bufs[i := b], disk, k) == if b.valid && k == b.key then b.data else View(bufs, disk, k)
  {
    var bufs' := bufs[i := b];
    if b.valid && k == b.key {
      ViewIs(bufs', disk, k, i);
    } else if Cached(bufs, k) {
      var j :| 0 <= j < |bufs| && bufs[j].key == k && bufs[j].valid;
      ViewIs(bufs, disk, k, j);
      ViewIs(bufs', disk, k, j);
    } else {
      assert !Cached(bufs', k) by {
        forall j | 0 <= j < |bufs'|
          ensures !(bufs'[j].key == k && bufs'[j].valid)
        {
          assert !(bufs[j].key == k && bufs[j].valid);
        }
      }
    }
  }

  /** Counting references and taking or leaving the lock does not show. */
  lemma CountKeepsView(bufs: seq<Buf>, disk: map<Key, Block>, i: nat, b: Buf)
    requires BufsOk(bufs, disk) && i < |bufs|
    requires b.key == bufs[i].key && b.valid == bufs[i].valid && b.data == bufs[i].data && BufOk(b, disk)
    ensures BufsOk(bufs[i := b], disk) && SameView(bufs, disk, bufs[i := b], disk)
  {
    UniqueUpdate(bufs, i, b);
    forall k | k in disk
      ensures View(bufs[i := b], disk, k) == View(bufs, disk, k)
    {
      ViewUpdate(bufs, disk, i, b, k);
      if b.valid && k == b.key {
        ViewIs(bufs, disk, k, i);
      }
    }
  }

  lemma UniqueUpdate(bufs: seq<Buf>, i: nat, b: Buf)
    requires Unique(bufs) && i < |bufs| && b.key == bufs[i].key
    ensures Unique(bufs[i := b])
  {
    var bufs' := bufs[i := b];
    forall a, c | 0 <= a < c < |bufs'| && bufs'[a].key == bufs'[c].key
      ensures bufs'[a].key.dev == 0
    {
      assert bufs[a].key == bufs[c].key;
    }
  }

  /** Recycling an unused buffer for a block that is not cached does not show: what it held is on the disk. */
  lemma RecycleKeepsView(bufs: seq<Buf>, disk: map<Key, Block>, i: nat, k: Key)
    requires BufsOk(bufs, disk) && i < |bufs| && bufs[i].refcnt == 0 && k in disk
    requires forall j :: 0 <= j < |bufs| ==> bufs[j].key != k
    ensures var b := Buf(k, false, 1, false, bufs[i].data);
            BufsOk(bufs[i := b], disk) && SameView(bufs, disk, bufs[i := b], disk)
  {
    var b := Buf(k, false, 1, false, bufs[i].data);
    var bufs' := bufs[i := b];
    forall a, c | 0 <= a < c < |bufs'| && bufs'[a].key == bufs'[c].key
      ensures bufs'[a].key.dev == 0
    {
      if a != i && c != i {
        assert bufs[a].key == bufs[c].key;
      }
    }
    forall x | x in disk
      ensures View(bufs', disk, x) == View(bufs, disk, x)
    {
      RecycleView(bufs, disk, i, k, x);
    }
  }

  lemma RecycleView(bufs: seq<Buf>, disk: map<Key, Block>, i: nat, k: Key, x: Key)
    requires BufsOk(bufs, disk) && i < |bufs| && bufs[i].refcnt == 0 && k in disk && x in disk
    requires forall j :: 0 <= j < |bufs| ==> bufs[j].key != k
    requires BufsOk(bufs[i := Buf(k, false, 1, false, bufs[i].data)], disk)
    ensures View(bufs[i := Buf(k, false, 1, false, bufs[i].data)], disk, x) == View(bufs, disk, x)
  {
    var bufs' := bufs[i := Buf(k, false, 1, false, bufs[i].data)];
    if j :| 0 <= j < |bufs| && j != i && bufs[j].key == x && bufs[j].valid {
      assert bufs'[j].key == x && bufs'[j].valid;
      ViewIs(bufs, disk, x, j);
      ViewIs(bufs', disk, x, j);
    } else {
      assert !Cached(bufs', x);
      if Cached(bufs, x) {
        ViewIs(bufs, disk, x, i);
      }
    }
  }

  // ----- the order of the ring

  /** Behind the head, buffers come in the order of their last release, latest first. */
  ghost predicate ByAge(ring: seq<nat>, stamp: seq<nat>) {
    forall j, k :: 1 <= j < k < |ring| && ring[j] < |stamp| && ring[k] < |stamp| ==> stamp[ring[j]] > stamp[ring[k]]
  }

  ghost predicate Before(stamp: seq<nat>, clock: nat) {
    forall b :: 0 <= b < |stamp| ==> stamp[b] < clock
  }

  lemma MoveByAge(ring: seq<nat>, stamp: seq<nat>, clock: nat, at: nat)
    requires ByAge(ring, stamp) && Before(stamp, clock) && Distinct(ring) && 1 <= at < |ring| && ring[at] < |stamp|
    ensures ByAge(WithFront(Without(ring, at), ring[at]), stamp[ring[at] := clock])
  {
    var more, stamp' := WithFront(Without(ring, at), ring[at]), stamp[ring[at] := clock];
    forall j, k | 1 <= j < k < |more| && more[j] < |stamp'| && more[k] < |stamp'|
      ensures stamp'[more[j]] > stamp'[more[k]]
    {
      var k' := if k <= at then k - 1 else k;
      assert more[k] == ring[k'];
      if j > 1 {
        var j' := if j <= at then j - 1 else j;
        assert more[j] == ring[j'];
      }
    }
  }

  /** The links, the order and the numbering of the buffers. */
  ghost predicate RingOk(next: seq<nat>, prev: seq<nat>, ring: seq<nat>, stamp: seq<nat>, clock: nat, nbuf: nat) {
    && |next| == nbuf + 1 && |stamp| == nbuf
    && Linked(next, prev, ring) && Covers(ring, nbuf + 1) && ring[0] == nbuf
    && ByAge(ring, stamp) && Before(stamp, clock)
  }

  lemma RingAt(next: seq<nat>, prev: seq<nat>, ring: seq<nat>, stamp: seq<nat>, clock: nat, nbuf: nat, k: nat)
    requires RingOk(next, prev, ring, stamp, clock, nbuf) && k < |ring|
    ensures |ring| == nbuf + 1 && |next| == |prev| == nbuf + 1 && ring[0] == nbuf && ring[k] <= nbuf
    ensures next[ring[k]] == (if k + 1 < |ring| then ring[k + 1] else nbuf)
    ensures prev[ring[k]] == (if k == 0 then ring[|ring| - 1] else ring[k - 1])
    ensures ring[k] == nbuf <==> k == 0
  {
    LinksAt(next, prev, ring, k);
    LinksAt(next, prev, ring, if k == 0 then |ring| - 1 else k - 1);
  }

  /** binit's loop: buffers b - 1 down to 0 are in the ring. */
  ghost predicate Booting(next: seq<nat>, prev: seq<nat>, ring: seq<nat>, stamp: seq<nat>, b: nat, nbuf: nat) {
    && |next| == |prev| == nbuf + 1 && |ring| == b + 1 && ring[0] == nbuf && b == |stamp| && b <= nbuf
    && Linked(next, prev, ring) && (forall k :: 1 <= k <= b ==> ring[k] == b - k)
    && forall c :: 0 <= c < b ==> stamp[c] == c
  }

  lemma BootingStarts(nbuf: nat, next: seq<nat>, prev: seq<nat>)
    requires |next| == |prev| == nbuf + 1 && next[nbuf] == nbuf && prev[nbuf] == nbuf
    ensures Booting(next, prev, [nbuf], [], 0, nbuf)
  {
  }

  lemma BootingStep(next: seq<nat>, prev: seq<nat>, ring: seq<nat>, stamp: seq<nat>, b: nat, nbuf: nat)
    requires Booting(next, prev, ring, stamp, b, nbuf) && b < nbuf
    ensures |next| == |prev| == nbuf + 1 && next[nbuf] < |prev| && ring != []
    ensures Booting(next[b := next[nbuf]][nbuf := b], prev[b := nbuf][next[nbuf] := b], WithFront(ring, b),
                    stamp + [b], b + 1, nbuf)
  {
    assert b !in ring;
    PushFrontKeeps(next, prev, ring, b);
    hide Linked;
  }

  lemma BootingEnds(next: seq<nat>, prev: seq<nat>, ring: seq<nat>, stamp: seq<nat>, nbuf: nat)
    requires Booting(next, prev, ring, stamp, nbuf, nbuf)
    ensures RingOk(next, prev, ring, stamp, nbuf, nbuf)
  {
    forall c | 0 <= c < nbuf + 1
      ensures c in ring
    {
      assert ring[if c == nbuf then 0 else nbuf - c] == c;
    }
  }

  /** b is unused, and of the unused buffers the one released the longest ago. */
  ghost predicate LeastRecent(bufs: seq<Buf>, stamp: seq<nat>, b: nat) {
    && b < |bufs| == |stamp| && bufs[b].refcnt == 0
    && forall c :: 0 <= c < |bufs| && bufs[c].refcnt == 0 ==> stamp[b] <= stamp[c]
  }

  ghost predicate Absent(bufs: seq<Buf>, k: Key) {
    forall b :: 0 <= b < |bufs| ==> bufs[b].key != k
  }

  lemma OldestIsLeastRecent(ring: seq<nat>, bufs: seq<Buf>, stamp: seq<nat>, nbuf: nat, at: nat)
    requires Covers(ring, nbuf + 1) && ring[0] == nbuf && |bufs| == |stamp| == nbuf && ByAge(ring, stamp)
    requires 1 <= at < |ring| && ring[at] < nbuf && bufs[ring[at]].refcnt == 0
    requires forall k :: at < k < |ring| && ring[k] < nbuf ==> bufs[ring[k]].refcnt > 0
    ensures LeastRecent(bufs, stamp, ring[at])
  {
    forall c | 0 <= c < |bufs| && bufs[c].refcnt == 0
      ensures stamp[ring[at]] <= stamp[c]
    {
      assert c in ring;
      var k :| 0 <= k < |ring| && ring[k] == c;
      if k < at {
        assert stamp[ring[k]] > stamp[ring[at]];
      }
    }
  }

  class Cache {
    const nbuf: nat
    var bufs: seq<Buf>
    var next: seq<nat>
    var prev: seq<nat>
    var disk: map<Key, Block>
    ghost var ring: seq<nat>
    ghost var stamp: seq<nat>
    ghost var clock: nat

    ghost predicate Valid()
      reads this
    {
      |bufs| == nbuf && RingOk(next, prev, ring, stamp, clock, nbuf) && BufsOk(bufs, disk)
    }

    /** binit, on a disk of the given contents. */
    constructor (nbuf: nat, disk: map<Key, Block>)
      requires forall k :: k in disk ==> k.dev != 0
      ensures Valid() && this.nbuf == nbuf && this.disk == disk
      ensures forall b :: 0 <= b < nbuf ==> bufs[b].refcnt == 0 && !bufs[b].valid && !bufs[b].locked
    {
      this.nbuf, this.disk := nbuf, disk;
      bufs := seq(nbuf, _ => Buf(Key(0, 0), false, 0, false, ZERO_BLOCK));
      next, prev := seq(nbuf + 1, _ => nbuf), seq(nbuf + 1, _ => nbuf);
      ring, stamp, clock := [nbuf], [], 0;
      new;
      hide Linked, RingOk, Booting;
      BootingStarts(nbuf, next, prev);
      for b := 0 to nbuf
        invariant bufs == seq(nbuf, _ => Buf(Key(0, 0), false, 0, false, ZERO_BLOCK)) && this.disk == disk
        invariant Booting(next, prev, ring, stamp, b, nbuf) && clock == b
      {
        BootingStep(next, prev, ring, stamp, b, nbuf);
        var first := next[nbuf];
        next := next[b := first];
        prev := prev[b := nbuf];
        prev := prev[first := b];
        next := next[nbuf := b];
        ring := WithFront(ring, b);
        stamp := stamp + [b];
        clock := b + 1;
      }
      BootingEnds(next, prev, ring, stamp, nbuf);
    }

    /**
     bget: the buffer of block k gets one more reference; if there is none, the unused buffer released
     the longest ago is given to k, with nothing valid in it. It panics if no buffer is unused then.
     */
    method Bget(k: Key) returns (r: Result<nat>)
      requires Valid() && k in disk
      modifies this
      ensures r.Panic? <==> Absent(old(bufs), k) && forall b :: 0 <= b < nbuf ==> old(bufs)[b].refcnt > 0
      ensures r.Ok? ==> Valid() && r.value < nbuf && disk == old(disk) && ring == old(ring) && stamp == old(stamp)
      ensures r.Ok? && !Absent(old(bufs), k) ==>
                old(bufs)[r.value].key == k
                && bufs == old(bufs)[r.value := old(bufs)[r.value].(refcnt := old(bufs)[r.value].refcnt + 1)]
      ensures r.Ok? && Absent(old(bufs), k) ==>
                LeastRecent(old(bufs), stamp, r.value)
                && bufs == old(bufs)[r.value := Buf(k, false, 1, old(bufs)[r.value].locked, old(bufs)[r.value].data)]
      ensures r.Ok? ==> SameView(old(bufs), disk, bufs, disk)
    {
      hide RingOk, BufsOk, SameView;
      var b := First();
      ghost var at := 1;
      while b != nbuf
        invariant unchanged(this) && 1 <= at <= nbuf + 1 && |ring| == nbuf + 1
        invariant if at <= nbuf then b == ring[at] && b < nbuf else b == nbuf
        invariant forall j :: 1 <= j < at ==> ring[j] < nbuf && bufs[ring[j]].key != k
        decreases nbuf + 1 - at
      {
        if bufs[b].key == k {
          ghost var was := bufs;
          bufs := bufs[b := bufs[b].(refcnt := bufs[b].refcnt + 1)];
          Counted(was, disk, b, bufs[b]);
          return Ok(b);
        }
        b := NextOf(b, at);
        at := at + 1;
      }
      AllDifferent(ring, bufs, next, prev, stamp, clock, nbuf, k);
      b := Last();
      at := nbuf;
      while b != nbuf
        invariant unchanged(this) && 0 <= at <= nbuf && |ring| == nbuf + 1
        invariant if at > 0 then b == ring[at] && b < nbuf else b == nbuf
        invariant forall j :: at < j <= nbuf ==> ring[j] < nbuf && bufs[ring[j]].refcnt > 0
        decreases at
      {
        if bufs[b].refcnt == 0 {
          Recycled(bufs, disk, next, prev, ring, stamp, clock, nbuf, at, k);
          bufs := bufs[b := Buf(k, false, 1, bufs[b].locked, bufs[b].data)];
          return Ok(b);
        }
        b := PrevOf(b, at);
        at := at - 1;
      }
      AllUsed(ring, bufs, next, prev, stamp, clock, nbuf);
      return Panic;
    }

    /** bcache.head.next */
    method First() returns (b: nat)
      requires Valid()
      ensures |ring| == nbuf + 1 && b == (if nbuf >= 1 then ring[1] else nbuf) && (nbuf >= 1 ==> b < nbuf)
    {
      RingAt(next, prev, ring, stamp, clock, nbuf, 0);
      ghost var second := if nbuf >= 1 then 1 else 0;
      RingAt(next, prev, ring, stamp, clock, nbuf, second);
      b := next[nbuf];
    }

    /** bcache.head.prev */
    method Last() returns (b: nat)
      requires Valid()
      ensures |ring| == nbuf + 1 && b == ring[nbuf] && (nbuf >= 1 ==> b < nbuf) && (nbuf == 0 ==> b == nbuf)
    {
      RingAt(next, prev, ring, stamp, clock, nbuf, 0);
      RingAt(next, prev, ring, stamp, clock, nbuf, nbuf);
      b := prev[nbuf];
    }

    /** acquiresleep on a buffer that the caller has a reference to, once nobody else holds it. */
    method Lock(b: nat)
      requires Valid() && b < nbuf && bufs[b].refcnt > 0 && !bufs[b].locked
      modifies this`bufs
      ensures Valid() && bufs == old(bufs)[b := old(bufs)[b].(locked := true)] && SameView(old(bufs), disk, bufs, disk)
    {
      hide RingOk, SameView;
      CountKeepsView(bufs, disk, b, bufs[b].(locked := true));
      bufs := bufs[b := bufs[b].(locked := true)];
    }

    /** bread, from the moment the buffer is free to lock: the caller finds the block as every client sees it. */
    method Bread(k: Key) returns (r: Result<nat>)
      requires Valid() && k in disk && forall b :: 0 <= b < nbuf && bufs[b].key == k ==> !bufs[b].locked
      modifies this
      ensures r.Panic? <==> Absent(old(bufs), k) && forall b :: 0 <= b < nbuf ==> old(bufs)[b].refcnt > 0
      ensures r.Ok? ==>
                && Valid() && disk == old(disk) && r.value < nbuf
                && bufs[r.value].key == k && bufs[r.value].valid && bufs[r.value].locked
                && bufs[r.value].data == View(old(bufs), old(disk), k) && SameView(old(bufs), disk, bufs, disk)
    {
      hide RingOk;
      r := Bget(k);
      if r.Panic? {
        return;
      }
      var b := r.value;
      Lock(b);
      ghost var locked := bufs;
      if !bufs[b].valid {
        FillKeepsView(bufs, disk, b);
        bufs := bufs[b := bufs[b].(valid := true, data := disk[k])];
      }
      ViewIs(bufs, disk, k, b);
    }

    /** A client changes the buffer it has locked. */
    method Modify(b: nat, data: Block)
      requires Valid() && b < nbuf && bufs[b].locked && bufs[b].valid
      modifies this`bufs
      ensures Valid() && bufs == old(bufs)[b := old(bufs)[b].(data := data)]
      ensures forall k :: k in disk ==> 
                View(bufs, disk, k) == if k == bufs[b].key then data else View(old(bufs), disk, k)
    {
      hide RingOk;
      ghost var was := bufs;
      bufs := bufs[b := bufs[b].(data := data)];
      UniqueUpdate(was, b, bufs[b]);
      assert BufOk(was[b], disk);
      forall k | k in disk
        ensures View(bufs, disk, k) == if k == bufs[b].key then data else View(was, disk, k)
      {
        ViewUpdate(was, disk, b, bufs[b], k);
      }
    }

    /** bwrite: the disk block becomes what every client already sees. */
    method Bwrite(b: nat) returns (r: Result<()>)
      requires Valid() && b < nbuf && bufs[b].valid
      modifies this`disk
      ensures r.Panic? <==> !bufs[b].locked
      ensures r.Ok? ==>
                Valid() && disk == old(disk)[bufs[b].key := bufs[b].data] && SameView(bufs, old(disk), bufs, disk)
    {
      hide RingOk;
      if !bufs[b].locked {
        return Panic;
      }
      assert BufOk(bufs[b], disk);
      WriteKeepsView(bufs, disk, b);
      disk := disk[bufs[b].key := bufs[b].data];
      return Ok(());
    }

    /**
     brelse: the last reference moves the buffer to the front of the ring. A client gives up its last
     reference only when the disk has the buffer's contents.
     */
    method Brelse(b: nat) returns (r: Result<()>)
      requires Valid() && b < nbuf && bufs[b].valid
               && (bufs[b].refcnt == 1 ==> bufs[b].key in disk && bufs[b].data == disk[bufs[b].key])
      modifies this
      ensures r.Panic? <==> !old(bufs)[b].locked
      ensures r.Ok? ==>
                && Valid() && disk == old(disk) && SameView(old(bufs), disk, bufs, disk)
                && bufs == old(bufs)[b := old(bufs)[b].(locked := false, refcnt := old(bufs)[b].refcnt - 1)]
                && (bufs[b].refcnt > 0 ==> ring == old(ring) && stamp == old(stamp))
                && (bufs[b].refcnt == 0 ==> stamp == old(stamp)[b := old(clock)] && |ring| > 1 && ring[1] == b)
    {
      hide RingOk, BufsOk;
      if !bufs[b].locked {
        return Panic;
      }
      LockedIsUsed(bufs, disk, b);
      PutKeepsView(bufs, disk, b, bufs[b].(locked := false, refcnt := bufs[b].refcnt - 1));
      bufs := bufs[b := bufs[b].(locked := false, refcnt := bufs[b].refcnt - 1)];
      if bufs[b].refcnt == 0 {
        MoveFront(b);
      }
      return Ok(());
    }

    /** brelse's relinking. */
    method MoveFront(b: nat)
      requires Valid() && b < nbuf
      modifies this`next, this`prev, this`ring, this`stamp, this`clock
      ensures Valid() && stamp == old(stamp)[b := old(clock)] && |ring| > 1 && ring[1] == b
    {
      hide RingOk, BufsOk;
      ghost var at := Position(next, prev, ring, stamp, clock, nbuf, b);
      FrontKeeps(next, prev, ring, stamp, clock, nbuf, at);
      prev := prev[next[b] := prev[b]];
      next := next[prev[b] := next[b]];
      next := next[b := next[nbuf]];
      prev := prev[b := nbuf];
      prev := prev[next[nbuf] := b];
      next := next[nbuf := b];
      ring := WithFront(Without(ring, at), b);
      stamp := stamp[b := clock];
      clock := clock + 1;
    }

    /** bpin, by a client that has a reference */
    method Bpin(b: nat)
      requires Valid() && b < nbuf && bufs[b].refcnt > 0
      modifies this`bufs
      ensures Valid() && bufs == old(bufs)[b := old(bufs)[b].(refcnt := old(bufs)[b].refcnt + 1)]
              && SameView(old(bufs), disk, bufs, disk)
    {
      hide RingOk, BufsOk, SameView;
      Counted(bufs, disk, b, bufs[b].(refcnt := bufs[b].refcnt + 1));
      bufs := bufs[b := bufs[b].(refcnt := bufs[b].refcnt + 1)];
    }

    /** bunpin, by the log, which has pinned the buffer and still has it locked or has written it */
    method Bunpin(b: nat)
      requires Valid() && b < nbuf && bufs[b].refcnt > 0 && (bufs[b].locked ==> bufs[b].refcnt > 1)
      requires bufs[b].refcnt == 1 && bufs[b].valid ==> bufs[b].key in disk && bufs[b].data == disk[bufs[b].key]
      modifies this`bufs
      ensures Valid() && bufs == old(bufs)[b := old(bufs)[b].(refcnt := old(bufs)[b].refcnt - 1)]
              && SameView(old(bufs), disk, bufs, disk)
    {
      hide RingOk, BufsOk;
      UnpinKeepsView(bufs, disk, b);
      bufs := bufs[b := bufs[b].(refcnt := bufs[b].refcnt - 1)];
    }

    method NextOf(b: nat, ghost at: nat) returns (c: nat)
      requires Valid() && 1 <= at <= nbuf && |ring| == nbuf + 1 && b == ring[at]
      ensures if at < nbuf then c == ring[at + 1] && c < nbuf else c == nbuf
    {
      RingAt(next, prev, ring, stamp, clock, nbuf, at);
      ghost var after := if at < nbuf then at + 1 else at;
      RingAt(next, prev, ring, stamp, clock, nbuf, after);
      c := next[b];
    }

    method PrevOf(b: nat, ghost at: nat) returns (c: nat)
      requires Valid() && 1 <= at <= nbuf && |ring| == nbuf + 1 && b == ring[at]
      ensures if at > 1 then c == ring[at - 1] && c < nbuf else c == nbuf
    {
      RingAt(next, prev, ring, stamp, clock, nbuf, at);
      RingAt(next, prev, ring, stamp, clock, nbuf, at - 1);
      c := prev[b];
    }
  }

  lemma Counted(bufs: seq<Buf>, disk: map<Key, Block>, i: nat, b: Buf)
    requires BufsOk(bufs, disk) && i < |bufs| && b == bufs[i].(refcnt := bufs[i].refcnt + 1)
    ensures BufsOk(bufs[i := b], disk) && SameView(bufs, disk, bufs[i := b], disk)
  {
    CountKeepsView(bufs, disk, i, b);
  }

  lemma AllDifferent(ring: seq<nat>, bufs: seq<Buf>, next: seq<nat>, prev: seq<nat>, stamp: seq<nat>, clock: nat,
                     nbuf: nat, k: Key)
    requires RingOk(next, prev, ring, stamp, clock, nbuf) && |bufs| == nbuf
    requires forall j :: 1 <= j <= nbuf ==> ring[j] < nbuf && bufs[ring[j]].key != k
    ensures Absent(bufs, k)
  {
    forall b | 0 <= b < nbuf
      ensures bufs[b].key != k
    {
      var at := Position(next, prev, ring, stamp, clock, nbuf, b);
    }
  }

  lemma AllUsed(ring: seq<nat>, bufs: seq<Buf>, next: seq<nat>, prev: seq<nat>, stamp: seq<nat>, clock: nat, nbuf: nat)
    requires RingOk(next, prev, ring, stamp, clock, nbuf) && |bufs| == nbuf
    requires forall j :: 1 <= j <= nbuf ==> ring[j] < nbuf && bufs[ring[j]].refcnt > 0
    ensures forall b :: 0 <= b < nbuf ==> bufs[b].refcnt > 0
  {
    forall b | 0 <= b < nbuf
      ensures bufs[b].refcnt > 0
    {
      var at := Position(next, prev, ring, stamp, clock, nbuf, b);
    }
  }

  lemma Recycled(bufs: seq<Buf>, disk: map<Key, Block>, next: seq<nat>, prev: seq<nat>, ring: seq<nat>,
                 stamp: seq<nat>, clock: nat, nbuf: nat, at: nat, k: Key)
    requires RingOk(next, prev, ring, stamp, clock, nbuf) && |bufs| == nbuf && BufsOk(bufs, disk)
    requires 1 <= at <= nbuf && ring[at] < nbuf && bufs[ring[at]].refcnt == 0 && Absent(bufs, k) && k in disk
    requires forall j :: at < j <= nbuf ==> ring[j] < nbuf && bufs[ring[j]].refcnt > 0
    ensures LeastRecent(bufs, stamp, ring[at]) && !bufs[ring[at]].locked
    ensures var b := Buf(k, false, 1, false, bufs[ring[at]].data);
            BufsOk(bufs[ring[at] := b], disk) && SameView(bufs, disk, bufs[ring[at] := b], disk)
  {
    OldestIsLeastRecent(ring, bufs, stamp, nbuf, at);
    RecycleKeepsView(bufs, disk, ring[at], k);
    assert BufOk(bufs[ring[at]], disk);
  }

  lemma LockedIsUsed(bufs: seq<Buf>, disk: map<Key, Block>, b: nat)
    requires BufsOk(bufs, disk) && b < |bufs| && bufs[b].locked
    ensures bufs[b].refcnt > 0 && (bufs[b].valid ==> bufs[b].key in disk)
  {
    assert BufOk(bufs[b], disk);
  }

  lemma UnpinKeepsView(bufs: seq<Buf>, disk: map<Key, Block>, i: nat)
    requires BufsOk(bufs, disk) && i < |bufs| && bufs[i].refcnt > 0 && (bufs[i].locked ==> bufs[i].refcnt > 1)
    requires bufs[i].refcnt == 1 && bufs[i].valid ==> bufs[i].key in disk && bufs[i].data == disk[bufs[i].key]
    ensures var b := bufs[i].(refcnt := bufs[i].refcnt - 1);
            BufsOk(bufs[i := b], disk) && SameView(bufs, disk, bufs[i := b], disk)
  {
    assert BufOk(bufs[i], disk);
    CountKeepsView(bufs, disk, i, bufs[i].(refcnt := bufs[i].refcnt - 1));
  }

  lemma PutKeepsView(bufs: seq<Buf>, disk: map<Key, Block>, i: nat, b: Buf)
    requires BufsOk(bufs, disk) && i < |bufs| && bufs[i].refcnt > 0
             && b == bufs[i].(locked := false, refcnt := bufs[i].refcnt - 1)
    requires bufs[i].valid && bufs[i].refcnt == 1 ==> bufs[i].key in disk && bufs[i].data == disk[bufs[i].key]
    ensures BufsOk(bufs[i := b], disk) && SameView(bufs, disk, bufs[i := b], disk)
  {
    assert BufOk(bufs[i], disk);
    CountKeepsView(bufs, disk, i, b);
  }

  /** Reading a block in does not show: nothing was cached, and the buffer now has what is on the disk. */
  lemma FillKeepsView(bufs: seq<Buf>, disk: map<Key, Block>, i: nat)
    requires BufsOk(bufs, disk) && i < |bufs| && !bufs[i].valid && bufs[i].key in disk && bufs[i].refcnt > 0
    ensures var b := bufs[i].(valid := true, data := disk[bufs[i].key]);
            BufsOk(bufs[i := b], disk) && SameView(bufs, disk, bufs[i := b], disk)
  {
    var b := bufs[i].(valid := true, data := disk[bufs[i].key]);
    var bufs' := bufs[i := b];
    UniqueUpdate(bufs, i, b);
    forall k | k in disk
      ensures View(bufs', disk, k) == View(bufs, disk, k)
    {
      if k == b.key {
        ViewIs(bufs', disk, k, i);
        NotCached(bufs, disk, i);
      } else if j :| 0 <= j < |bufs| && bufs[j].key == k && bufs[j].valid {
        assert bufs'[j].key == k && bufs'[j].valid;
        ViewIs(bufs, disk, k, j);
        ViewIs(bufs', disk, k, j);
      } else {
        assert !Cached(bufs', k);
      }
    }
  }

  lemma NotCached(bufs: seq<Buf>, disk: map<Key, Block>, i: nat)
    requires BufsOk(bufs, disk) && i < |bufs| && !bufs[i].valid && bufs[i].key in disk
    ensures !Cached(bufs, bufs[i].key)
  {
    forall j | 0 <= j < |bufs| && bufs[j].key == bufs[i].key
      ensures !bufs[j].valid
    {
      OnlyOne(bufs, i, j);
    }
  }

  lemma WriteKeepsView(bufs: seq<Buf>, disk: map<Key, Block>, i: nat)
    requires BufsOk(bufs, disk) && i < |bufs| && bufs[i].valid && bufs[i].locked && bufs[i].key in disk
    ensures var disk' := disk[bufs[i].key := bufs[i].data];
            BufsOk(bufs, disk') && SameView(bufs, disk, bufs, disk')
  {
    var disk' := disk[bufs[i].key := bufs[i].data];
    forall j | 0 <= j < |bufs|
      ensures BufOk(bufs[j], disk')
    {
      assert BufOk(bufs[j], disk) && BufOk(bufs[i], disk);
      if bufs[j].valid && bufs[j].key == bufs[i].key {
        OnlyOne(bufs, i, j);
      }
    }
    forall k | k in disk
      ensures View(bufs, disk', k) == View(bufs, disk, k)
    {
      if k == bufs[i].key {
        ViewIs(bufs, disk, k, i);
        ViewIs(bufs, disk', k, i);
      } else if j :| 0 <= j < |bufs| && bufs[j].key == k && bufs[j].valid {
        ViewIs(bufs, disk, k, j);
        ViewIs(bufs, disk', k, j);
      }
    }
  }

  lemma Position(next: seq<nat>, prev: seq<nat>, ring: seq<nat>, stamp: seq<nat>, clock: nat, nbuf: nat, b: nat)
    returns (at: nat)
    requires RingOk(next, prev, ring, stamp, clock, nbuf) && b < nbuf
    ensures 1 <= at < |ring| && ring[at] == b
  {
    assert b in ring;
    at :| 0 <= at < |ring| && ring[at] == b;
  }

  /** The ring after brelse's six assignments. */
  ghost predicate FrontOk(next: seq<nat>, prev: seq<nat>, ring: seq<nat>, stamp: seq<nat>, clock: nat, nbuf: nat,
                          at: nat) {
    && 1 <= at < |ring|
    && var b := ring[at];
    && b < |stamp| && b < |next| == |prev| && next[b] < |prev| && prev[b] < |next| && next[b] != b && b != nbuf < |next|
    && var next1, prev1 := next[prev[b] := next[b]], prev[next[b] := prev[b]];
    && next1[nbuf] < |prev1|
    && RingOk(next1[b := next1[nbuf]][nbuf := b], prev1[b := nbuf][next1[nbuf] := b], WithFront(Without(ring, at), b),
              stamp[b := clock], clock + 1, nbuf)
  }

  lemma FrontKeeps(next: seq<nat>, prev: seq<nat>, ring: seq<nat>, stamp: seq<nat>, clock: nat, nbuf: nat, at: nat)
    requires RingOk(next, prev, ring, stamp, clock, nbuf) && 1 <= at < |ring|
    ensures FrontOk(next, prev, ring, stamp, clock, nbuf, at)
  {
    RingAt(next, prev, ring, stamp, clock, nbuf, at);
    MoveKeeps(next, prev, ring, at);
    MoveByAge(ring, stamp, clock, at);
    assert Succ(ring, at) != ring[at];
    hide Linked, Covers, ByAge;
  }
}
