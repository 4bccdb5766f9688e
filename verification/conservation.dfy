/**
 Physical memory as a whole: on every run of any number of processes that create,
 grow, copy, shrink and free address spaces, each page is in exactly one place:
 on the free list, in one address space, or with another user of kalloc. Module
 Spaces shows that the methods of Vm.Memory take exactly these steps.
 */
module Conservation {
  import opened Common
  import opened PageTable
  import opened Vm

  /**
   A page table, how many pages from 0 it maps to pages of its own, and what it maps above those: for a process the
   trampoline and the trapframe, which belong to the kernel and to the process table.
   */
  datatype AddressSpace = AddressSpace(t: Tree, n: nat, high: map<nat, Leaf>)

  /** owner: the address space that each owned page belongs to. others: pages that kalloc gave to anyone else. */
  datatype Sys = Sys(mem: Mem, free: seq<nat>, spaces: map<nat, AddressSpace>, owner: map<nat, nat>, others: set<nat>)

  /** A table page, or the page behind a mapping. */
  ghost predicate Owns(mem: Mem, s: AddressSpace, p: nat) {
    p in s.t.role || p in Backing(mem, s.t, 0, s.n)
  }

  function LeafIn(high: map<nat, Leaf>, v: nat): Option<Leaf> {
    if v in high then Some(high[v]) else None
  }

  /** At and above n exactly high is mapped. */
  ghost predicate HighOk(mem: Mem, s: AddressSpace) {
    && (forall v :: s.n <= v < MAXVPN ==> Lookup(mem, s.t, v) == LeafIn(s.high, v))
    && (forall v :: v in s.high ==> s.n <= v < MAXVPN)
  }

  /** An address space is mapped on [0, n) to allocated pages of its own, and otherwise exactly as high says. */
  ghost predicate SpaceOk(mem: Mem, free: seq<nat>, lo: nat, s: AddressSpace) {
    && Space(mem, free, lo, s.t) && LeafRange(mem, s.t, 0, s.n) && Freeable(mem, free, lo, s.t, 0, s.n)
    && HighOk(mem, s)
  }

  ghost predicate OwnerOk(y: Sys, id: nat)
    requires id in y.spaces
  {
    forall p: nat :: Owns(y.mem, y.spaces[id], p) <==> p in y.owner && y.owner[p] == id
  }

  /** Every page is in exactly one place. */
  ghost predicate Partition(y: Sys, lo: nat) {
    && (forall p: nat :: lo <= p < |y.mem| <==> p in y.free || p in y.owner || p in y.others)
    && (forall p :: p in y.free ==> p !in y.owner && p !in y.others)
    && (forall p :: p in y.owner ==> p !in y.others)
    && (forall p :: p in y.owner ==> y.owner[p] in y.spaces)
  }

  ghost predicate Invariant(y: Sys, lo: nat) {
    && Partition(y, lo)
    && (forall id :: id in y.spaces ==> SpaceOk(y.mem, y.free, lo, y.spaces[id]) && OwnerOk(y, id))
  }

  // ----- steps

  datatype Op =
    | Create(id: nat)                           // uvmcreate
    | Grow(id: nat, t: Tree, want: seq<Leaf>)   // uvmalloc or uvmcopy into id, whether they succeed or fail
    | Shrink(id: nat, n: nat)                   // uvmdealloc
    | Destroy(id: nat)                          // uvmfree
    | MapHigh(id: nat, t: Tree, v: nat, leaf: Leaf, ok: bool)   // mappages of the trampoline or the trapframe
    | UnmapHigh(id: nat, v: nat)                // uvmunmap of one of them
    | TakeOther(p: nat)                         // kalloc and kfree of pages for anything else
    | GiveOther(p: nat)

  /** The owners after the pages gone have been freed. */
  ghost predicate Dropped(owner: map<nat, nat>, gone: seq<nat>, owner': map<nat, nat>) {
    && (forall p :: p in owner' <==> p in owner && p !in gone)
    && (forall p :: p in owner' ==> owner'[p] == owner[p])
  }

  /** The owners after address space id is gone. */
  ghost predicate Left(owner: map<nat, nat>, id: nat, owner': map<nat, nat>) {
    && (forall p :: p in owner' <==> p in owner && owner[p] != id)
    && (forall p :: p in owner' ==> owner'[p] == owner[p])
  }

  ghost predicate Added(owner: map<nat, nat>, id: nat, t: Tree, want: seq<Leaf>, owner': map<nat, nat>) {
    && (forall p: nat :: p in owner' <==> p in owner || p in t.role || Uses(want, p))
    && (forall p :: p in owner' ==> owner'[p] == if p in owner then owner[p] else id)
  }

  /** y' is what op makes of y, as the methods of Vm.Memory promise. */
  ghost predicate Next(y: Sys, lo: nat, op: Op, y': Sys) {
    match op
    case Create(id) =>
      && id !in y.spaces && y.free != [] && lo <= y.free[0] < |y.mem| && y.free[0] !in y.free[1..]
      && y' == Sys(y.mem[y.free[0] := Page(ZeroWords())], y.free[1..],
                   y.spaces[id := AddressSpace(EmptyTree(y.free[0]), 0, map[])],
                   y.owner[y.free[0] := id], y.others)
    case Grow(id, t, want) =>
      && id in y.spaces && y.spaces[id].n + |want| <= MAXVPN
      && (forall j :: 0 <= j < |want| ==> want[j].flags != PTE_V)
      && (forall v :: v in y.spaces[id].high ==> y.spaces[id].n + |want| <= v)
      && Extended(y.mem, y.free, y.spaces[id].t, y'.mem, y'.free, t, lo, y.spaces[id].n, want)
      && y'.spaces == y.spaces[id := y.spaces[id].(t := t, n := y.spaces[id].n + |want|)] && y'.others == y.others
      && Added(y.owner, id, t, want, y'.owner)
    case Shrink(id, n) =>
      && id in y.spaces && n <= y.spaces[id].n
      && var t, k := y.spaces[id].t, y.spaces[id].n - n;
      && Unmapped(y.mem, y.free, t, y'.mem, y'.free, lo, n, k, true)
      && y'.spaces == y.spaces[id := y.spaces[id].(n := n)] && y'.others == y.others
      && Dropped(y.owner, Backing(y.mem, t, n, k), y'.owner)
    case Destroy(id) =>
      && id in y.spaces && y.spaces[id].high == map[]
      && Destroyed(y.mem, y.free, y.spaces[id].t, y'.mem, y'.free, y.spaces[id].n)
      && y'.spaces == y.spaces - {id} && y'.others == y.others
      && Left(y.owner, id, y'.owner)
    case MapHigh(id, t, v, leaf, ok) =>
      && id in y.spaces && y.spaces[id].n <= v < MAXVPN && v !in y.spaces[id].high
      && Space(y'.mem, y'.free, lo, t) && Within(y.mem, y.free, y.spaces[id].t, y'.mem, y'.free, t)
      && Mapped(y.mem, y.spaces[id].t, y'.mem, t, v, if ok then 1 else 0, leaf.ppn, leaf.flags)
      && var s := y.spaces[id];
      && y'.spaces == y.spaces[id := s.(t := t, high := if ok then s.high[v := leaf] else s.high)]
      && y'.others == y.others && Added(y.owner, id, t, [], y'.owner)
    case UnmapHigh(id, v) =>
      && id in y.spaces && v in y.spaces[id].high
      && Unmapped(y.mem, y.free, y.spaces[id].t, y'.mem, y'.free, lo, v, 1, false)
      && y'.spaces == y.spaces[id := y.spaces[id].(high := y.spaces[id].high - {v})]
      && y'.others == y.others && y'.owner == y.owner
    case TakeOther(p) =>
      && y.free != [] && p == y.free[0] && p !in y.free[1..] && |y'.mem| == |y.mem|
      && (forall q :: 0 <= q < |y.mem| && q != p ==> y'.mem[q] == y.mem[q])
      && y'.free == y.free[1..] && y'.spaces == y.spaces && y'.owner == y.owner && y'.others == y.others + {p}
    case GiveOther(p) =>
      && p in y.others && |y'.mem| == |y.mem|
      && (forall q :: 0 <= q < |y.mem| && q != p ==> y'.mem[q] == y.mem[q])
      && y'.free == [p] + y.free && y'.spaces == y.spaces && y'.owner == y.owner && y'.others == y.others - {p}
  }

  // ----- what lies behind a mapping

  lemma {:induction false} InBacking(mem: Mem, t: Tree, a: nat, n: nat, v: nat)
    requires a <= v < a + n && Lookup(mem, t, v).Some?
    ensures Lookup(mem, t, v).value.ppn in Backing(mem, t, a, n)
  {
    hide Lookup;
    if v < a + n - 1 {
      InBacking(mem, t, a, n - 1, v);
    }
  }

  lemma {:induction false} BackingSame(m: Mem, t: Tree, m': Mem, t': Tree, a: nat, n: nat)
    requires forall v :: a <= v < a + n ==> Lookup(m', t', v) == Lookup(m, t, v)
    ensures Backing(m', t', a, n) == Backing(m, t, a, n)
  {
    hide Lookup;
    if n > 0 {
      BackingSame(m, t, m', t', a, n - 1);
      assert Lookup(m', t', a + n - 1) == Lookup(m, t, a + n - 1);
    }
  }

  lemma {:induction false} BackingJoin(m: Mem, t: Tree, a: nat, k: nat)
    ensures Backing(m, t, 0, a + k) == Backing(m, t, a, k) + Backing(m, t, 0, a)
  {
    hide Lookup;
    if k > 0 {
      BackingJoin(m, t, a, k - 1);
    }
  }

  /** An address space whose tables were not written is as it was. */
  lemma OtherSpace(m: Mem, f: seq<nat>, m': Mem, f': seq<nat>, lo: nat, s: AddressSpace)
    requires SpaceOk(m, f, lo, s) && |m'| == |m|
    requires forall p :: p in s.t.role ==> p < |m| && m'[p] == m[p]
    requires forall p: nat :: Owns(m, s, p) ==> p !in f'
    ensures SpaceOk(m', f', lo, s) && forall p: nat :: Owns(m', s, p) <==> Owns(m, s, p)
  {
    OtherPagesKeep(m, m', s.t);
    hide TreeOk, Lookup;
    BackingSame(m, s.t, m', s.t, 0, s.n);
    forall v | 0 <= v < s.n
      ensures Lookup(m', s.t, v) == Lookup(m, s.t, v) && Lookup(m, s.t, v).Some? && Lookup(m, s.t, v).value.ppn !in f'
    {
      InBacking(m, s.t, 0, s.n, v);
      assert Owns(m, s, Lookup(m, s.t, v).value.ppn);
    }
    hide Backing;
  }

  // ----- every step keeps the partition

  /** A step that touches only pages nobody else owns leaves the other address spaces alone. */
  lemma Bystander(y: Sys, lo: nat, y': Sys, id: nat, other: nat)
    requires Invariant(y, lo) && other in y.spaces && other != id && |y'.mem| == |y.mem|
    requires other in y'.spaces && y'.spaces[other] == y.spaces[other]
    requires forall p :: p in y.owner && y.owner[p] == other ==> p < |y.mem| && y'.mem[p] == y.mem[p] && p !in y'.free
    requires forall p: nat :: p in y.owner && y.owner[p] == other <==> p in y'.owner && y'.owner[p] == other
    ensures SpaceOk(y'.mem, y'.free, lo, y'.spaces[other]) && OwnerOk(y', other)
  {
    hide SpaceOk, Partition, Owns;
    var s := y.spaces[other];
    assert OwnerOk(y, other);
    TablesOwned(y.mem, s);
    OtherSpace(y.mem, y.free, y'.mem, y'.free, lo, s);
  }

  lemma TablesOwned(mem: Mem, s: AddressSpace)
    ensures forall p :: p in s.t.role ==> Owns(mem, s, p)
  {
  }

  lemma {:induction false} GrowOwns(y: Sys, lo: nat, id: nat, t: Tree, want: seq<Leaf>, y': Sys, p: nat)
    requires id in y.spaces && SpaceOk(y.mem, y.free, lo, y.spaces[id]) && Next(y, lo, Grow(id, t, want), y')
    ensures Owns(y'.mem, y'.spaces[id], p) <==> Owns(y.mem, y.spaces[id], p) || p in t.role || Uses(want, p)
  {
    hide TreeOk, Lookup, Backing, Uses;
    var s, n := y.spaces[id], y.spaces[id].n;
    BackingJoin(y'.mem, t, n, |want|);
    BackingSame(y.mem, s.t, y'.mem, t, 0, n);
    forall v | n <= v < n + |want|
      ensures Lookup(y'.mem, t, v) == Some(want[v - n])
    {
    }
    BackingIsWant(y'.mem, t, n, want, |want|, p);
    assert want[..|want|] == want;
  }

  /** What an extension does with the pages, without looking at translations. */
  lemma GrowPages(y: Sys, lo: nat, id: nat, t: Tree, want: seq<Leaf>, y': Sys)
    requires Next(y, lo, Grow(id, t, want), y')
    ensures |y'.mem| == |y.mem| && Account(y.free, y.spaces[id].t, y'.free, t, want)
    ensures forall p :: 0 <= p < |y.mem| && p !in t.role && p !in y.free ==> y'.mem[p] == y.mem[p]
    ensures forall p :: p in t.role || Uses(want, p) ==> p !in y'.free
  {
    hide TreeOk, Lookup, Account;
  }

  lemma GrowSpaceOk(y: Sys, lo: nat, id: nat, t: Tree, want: seq<Leaf>, y': Sys)
    requires Invariant(y, lo) && Next(y, lo, Grow(id, t, want), y')
    ensures SpaceOk(y'.mem, y'.free, lo, y'.spaces[id])
  {
    hide TreeOk, Lookup, Backing, OwnerOk, Partition;
    var s, n := y.spaces[id], y.spaces[id].n;
    var m', f' := y'.mem, y'.free;
    assert SpaceOk(y.mem, y.free, lo, s);
    forall v | 0 <= v < n + |want|
      ensures Lookup(m', t, v).Some? && Lookup(m', t, v).value.flags != PTE_V
      ensures var p := Lookup(m', t, v).value.ppn; lo <= p < |m'| && p !in f' && p !in t.role
      ensures v < n ==> Lookup(m', t, v).value.ppn !in y.free
      ensures n <= v ==> Lookup(m', t, v) == Some(want[v - n]) && want[v - n].ppn in y.free
    {
      NewLeaf(y, lo, id, t, want, y', v);
    }
    forall v, w | 0 <= v < w < n + |want| && Lookup(m', t, v).Some? && Lookup(m', t, w).Some?
      ensures Lookup(m', t, v).value.ppn != Lookup(m', t, w).value.ppn
    {
      assert v < n ==> Lookup(m', t, v) == Lookup(y.mem, s.t, v);
      assert w < n ==> Lookup(m', t, w) == Lookup(y.mem, s.t, w);
    }
  }

  lemma NewLeaf(y: Sys, lo: nat, id: nat, t: Tree, want: seq<Leaf>, y': Sys, v: nat)
    requires id in y.spaces && SpaceOk(y.mem, y.free, lo, y.spaces[id]) && Next(y, lo, Grow(id, t, want), y')
    requires v < y.spaces[id].n + |want|
    ensures var n := y.spaces[id].n;
            && Lookup(y'.mem, t, v) == (if v < n then Lookup(y.mem, y.spaces[id].t, v) else Some(want[v - n]))
            && Lookup(y'.mem, t, v).Some? && Lookup(y'.mem, t, v).value.flags != PTE_V
            && var p := Lookup(y'.mem, t, v).value.ppn;
            && lo <= p < |y'.mem| && p !in y'.free && p !in t.role && (p in y.free <==> v >= n)
  {
    hide TreeOk, Lookup;
    var s, n := y.spaces[id], y.spaces[id].n;
    assert Lookup(y'.mem, t, v) == if v < n then Lookup(y.mem, s.t, v) else Some(want[v - n]);
    if v >= n {
      assert Uses(want, want[v - n].ppn);
    } else {
      var p := Lookup(y.mem, s.t, v).value.ppn;
      assert p !in y.free && p !in s.t.role;
    }
  }

  /** Where one page is. */
  ghost predicate PageOk(y: Sys, lo: nat, p: nat) {
    && (lo <= p < |y.mem| <==> p in y.free || p in y.owner || p in y.others)
    && (p in y.free ==> p !in y.owner && p !in y.others)
    && (p in y.owner ==> p !in y.others && y.owner[p] in y.spaces)
  }

  lemma PartitionAt(y: Sys, lo: nat, p: nat)
    requires Partition(y, lo)
    ensures PageOk(y, lo, p)
  {
  }

  lemma PartitionAll(y: Sys, lo: nat)
    requires forall p: nat :: PageOk(y, lo, p)
    ensures Partition(y, lo)
  {
    forall p: nat
      ensures lo <= p < |y.mem| <==> p in y.free || p in y.owner || p in y.others
    {
      assert PageOk(y, lo, p);
    }
    forall p | p in y.free
      ensures p !in y.owner && p !in y.others
    {
      assert PageOk(y, lo, p);
    }
    forall p | p in y.owner
      ensures p !in y.others && y.owner[p] in y.spaces
    {
      assert PageOk(y, lo, p);
    }
  }

  lemma InvariantAt(y: Sys, lo: nat, id: nat)
    requires Invariant(y, lo) && id in y.spaces
    ensures Partition(y, lo) && SpaceOk(y.mem, y.free, lo, y.spaces[id]) && OwnerOk(y, id)
  {
    hide Partition, SpaceOk, OwnerOk;
  }

  /** The owner of one page. */
  lemma OwnerAt(y: Sys, id: nat, p: nat)
    requires id in y.spaces && OwnerOk(y, id)
    ensures Owns(y.mem, y.spaces[id], p) <==> p in y.owner && y.owner[p] == id
    ensures p in y.spaces[id].t.role ==> p in y.owner && y.owner[p] == id
  {
    TablesOwned(y.mem, y.spaces[id]);
  }

  lemma AccountAt(y: Sys, lo: nat, id: nat, t: Tree, want: seq<Leaf>, y': Sys, p: nat)
    requires Next(y, lo, Grow(id, t, want), y')
    ensures p in y.free <==> p in y'.free || Uses(want, p) || (p in t.role && p !in y.spaces[id].t.role)
    ensures (p in t.role || Uses(want, p) ==> p !in y'.free) && (p in y.spaces[id].t.role ==> p in t.role)
    ensures |y'.mem| == |y.mem|
  {
    GrowPages(y, lo, id, t, want, y');
    hide Next, Uses;
  }

  lemma GrowPage(y: Sys, lo: nat, id: nat, t: Tree, want: seq<Leaf>, y': Sys, p: nat)
    requires id in y'.spaces && Invariant(y, lo) && Next(y, lo, Grow(id, t, want), y')
    ensures PageOk(y', lo, p) && (Owns(y'.mem, y'.spaces[id], p) <==> p in y'.owner && y'.owner[p] == id)
    ensures p in y.owner && y.owner[p] != id ==> p !in t.role && p !in y'.free && p !in y.free && p < |y.mem|
    ensures p in y.owner ==> p in y'.owner && y'.owner[p] == y.owner[p]
    ensures p in y'.owner && y'.owner[p] != id ==> p in y.owner
  {
    hide SpaceOk, Owns, OwnerOk, Partition, Extended, Uses;
    PartitionAt(y, lo, p);
    OwnerAt(y, id, p);
    AccountAt(y, lo, id, t, want, y', p);
    GrowOwns(y, lo, id, t, want, y', p);
    assert p in y'.owner <==> p in y.owner || p in t.role || Uses(want, p);
  }

  lemma GrowOwner(y: Sys, lo: nat, id: nat, t: Tree, want: seq<Leaf>, y': Sys)
    requires id in y'.spaces && Invariant(y, lo) && Next(y, lo, Grow(id, t, want), y')
    ensures OwnerOk(y', id) && Partition(y', lo)
    ensures forall p :: p in y.owner && y.owner[p] != id ==>
              p !in t.role && p !in y'.free && p !in y.free && p < |y.mem|
  {
    hide Next, Invariant, Owns, PageOk, Partition;
    forall p: nat
      ensures PageOk(y', lo, p) && (Owns(y'.mem, y'.spaces[id], p) <==> p in y'.owner && y'.owner[p] == id)
      ensures p in y.owner && y.owner[p] != id ==> p !in t.role && p !in y'.free && p !in y.free && p < |y.mem|
    {
      GrowPage(y, lo, id, t, want, y', p);
    }
    PartitionAll(y', lo);
  }

  lemma GrowKeeps(y: Sys, lo: nat, id: nat, t: Tree, want: seq<Leaf>, y': Sys)
    requires Invariant(y, lo) && Next(y, lo, Grow(id, t, want), y')
    ensures Invariant(y', lo)
  {
    hide SpaceOk, OwnerOk, Partition, Extended;
    GrowSpaceOk(y, lo, id, t, want, y');
    GrowOwner(y, lo, id, t, want, y');
    GrowPages(y, lo, id, t, want, y');
    forall other | other in y'.spaces && other != id
      ensures SpaceOk(y'.mem, y'.free, lo, y'.spaces[other]) && OwnerOk(y', other)
    {
      Bystander(y, lo, y', id, other);
    }
  }

  // ----- shrinking

  lemma ShrinkBacking(y: Sys, lo: nat, id: nat, n: nat, y': Sys)
    requires Invariant(y, lo) && Next(y, lo, Shrink(id, n), y')
    ensures Backing(y'.mem, y.spaces[id].t, 0, n) == Backing(y.mem, y.spaces[id].t, 0, n)
    ensures forall p :: p in Backing(y.mem, y.spaces[id].t, n, y.spaces[id].n - n) ==>
              p !in Backing(y.mem, y.spaces[id].t, 0, n) && p !in y.spaces[id].t.role
  {
    hide TreeOk, Lookup, OwnerOk, Partition, Backing;
    var s, k := y.spaces[id], y.spaces[id].n - n;
    assert SpaceOk(y.mem, y.free, lo, s);
    BackingSame(y.mem, s.t, y'.mem, s.t, 0, n);
    hide Freeable, LeafRange, Unmapped;
    forall p | p in Backing(y.mem, s.t, n, k)
      ensures p !in Backing(y.mem, s.t, 0, n) && p !in s.t.role
    {
      GonePage(y.mem, y.free, lo, s.t, n, k, p);
    }
  }

  lemma ShrinkSpaceOk(y: Sys, lo: nat, id: nat, n: nat, y': Sys)
    requires Invariant(y, lo) && Next(y, lo, Shrink(id, n), y')
    ensures SpaceOk(y'.mem, y'.free, lo, y'.spaces[id])
  {
    hide TreeOk, Lookup, OwnerOk, Partition, Backing;
    var t := y.spaces[id].t;
    assert SpaceOk(y.mem, y.free, lo, y.spaces[id]);
    ShrinkBacking(y, lo, id, n, y');
    forall v | 0 <= v < n
      ensures Lookup(y'.mem, t, v) == Lookup(y.mem, t, v) && Lookup(y.mem, t, v).Some?
      ensures Lookup(y.mem, t, v).value.ppn !in y'.free
    {
      InBacking(y.mem, t, 0, n, v);
    }
  }

  /** A page behind [n, n + k) is behind no lower page, and no table. */
  lemma GonePage(mem: Mem, free: seq<nat>, lo: nat, t: Tree, n: nat, k: nat, p: nat)
    requires LeafRange(mem, t, 0, n + k) && Freeable(mem, free, lo, t, 0, n + k) && p in Backing(mem, t, n, k)
    ensures p !in Backing(mem, t, 0, n) && p !in t.role
  {
    hide Lookup, Backing;
    BackingHas(mem, t, n, k, p);
    var v :| n <= v < n + k && Lookup(mem, t, v).Some? && Lookup(mem, t, v).value.ppn == p;
    if p in Backing(mem, t, 0, n) {
      BackingHas(mem, t, 0, n, p);
    }
  }

  lemma ShrinkPage(y: Sys, lo: nat, id: nat, n: nat, y': Sys, p: nat)
    requires Invariant(y, lo) && Next(y, lo, Shrink(id, n), y')
    ensures PageOk(y', lo, p) && (Owns(y'.mem, y'.spaces[id], p) <==> p in y'.owner && y'.owner[p] == id)
    ensures p in y.owner && y.owner[p] != id ==>
              p !in y.spaces[id].t.role && p !in Backing(y.mem, y.spaces[id].t, n, y.spaces[id].n - n) && p !in y'.free
                  && p < |y.mem|
    ensures p in y'.owner ==> p in y.owner && y'.owner[p] == y.owner[p]
    ensures p in y.owner && y.owner[p] != id ==> p in y'.owner
  {
    hide SpaceOk, OwnerOk, Partition, Backing, TreeOk, Lookup;
    PartitionAt(y, lo, p);
    OwnerAt(y, id, p);
    ShrinkBacking(y, lo, id, n, y');
    BackingJoin(y.mem, y.spaces[id].t, n, y.spaces[id].n - n);
  }

  lemma ShrinkKeeps(y: Sys, lo: nat, id: nat, n: nat, y': Sys)
    requires Invariant(y, lo) && Next(y, lo, Shrink(id, n), y')
    ensures Invariant(y', lo)
  {
    hide SpaceOk, Partition, PageOk, Owns, Backing, TreeOk, Lookup;
    ShrinkSpaceOk(y, lo, id, n, y');
    forall p: nat
      ensures PageOk(y', lo, p) && (Owns(y'.mem, y'.spaces[id], p) <==> p in y'.owner && y'.owner[p] == id)
    {
      ShrinkPage(y, lo, id, n, y', p);
    }
    PartitionAll(y', lo);
    forall other | other in y'.spaces && other != id
      ensures SpaceOk(y'.mem, y'.free, lo, y'.spaces[other]) && OwnerOk(y', other)
    {
      ShrinkBystander(y, lo, id, n, y', other);
    }
  }

  lemma ShrinkBystander(y: Sys, lo: nat, id: nat, n: nat, y': Sys, other: nat)
    requires Invariant(y, lo) && Next(y, lo, Shrink(id, n), y') && other in y'.spaces && other != id
    ensures SpaceOk(y'.mem, y'.free, lo, y'.spaces[other]) && OwnerOk(y', other)
  {
    hide SpaceOk, Partition, PageOk, Owns, Backing, TreeOk, Lookup, OwnerOk;
    forall p: nat
      ensures p in y.owner && y.owner[p] == other ==> p < |y.mem| && y'.mem[p] == y.mem[p] && p !in y'.free
      ensures p in y.owner && y.owner[p] == other <==> p in y'.owner && y'.owner[p] == other
    {
      ShrinkPage(y, lo, id, n, y', p);
    }
    Bystander(y, lo, y', id, other);
  }

  // ----- mapping and unmapping above the user pages

  lemma MapHighSpaceOk(y: Sys, lo: nat, op: Op, y': Sys)
    requires op.MapHigh? && op.id in y.spaces && op.id in y'.spaces && Invariant(y, lo) && Next(y, lo, op, y')
    ensures SpaceOk(y'.mem, y'.free, lo, y'.spaces[op.id])
    ensures Backing(y'.mem, op.t, 0, y.spaces[op.id].n) == Backing(y.mem, y.spaces[op.id].t, 0, y.spaces[op.id].n)
  {
    hide TreeOk, Lookup, OwnerOk, Partition, Backing;
    var s, t := y.spaces[op.id], op.t;
    assert SpaceOk(y.mem, y.free, lo, s);
    NewTablesWereFree(y.free, y'.free, s.t, t);
    BackingSame(y.mem, s.t, y'.mem, t, 0, s.n);
    hide TookTables;
    forall v | 0 <= v < s.n
      ensures Lookup(y'.mem, t, v) == Lookup(y.mem, s.t, v)
    {
    }
    forall v | s.n <= v < MAXVPN
      ensures Lookup(y'.mem, t, v) == LeafIn(y'.spaces[op.id].high, v)
    {
      assert Lookup(y.mem, s.t, v) == LeafIn(s.high, v);
    }
  }

  /** Page p belongs to id as its tables say; if it was another address space's, it still is, untouched. */
  ghost predicate PageMoved(y: Sys, id: nat, y': Sys, p: nat) {
    && |y'.mem| == |y.mem| && id in y'.spaces
    && (Owns(y'.mem, y'.spaces[id], p) <==> p in y'.owner && y'.owner[p] == id)
    && (p in y.owner && y.owner[p] != id ==> p < |y.mem| && y'.mem[p] == y.mem[p] && p !in y'.free)
    && (p in y.owner ==> p in y'.owner && y'.owner[p] == y.owner[p])
    && (p in y'.owner && y'.owner[p] != id ==> p in y.owner)
  }

  lemma MapHighPage(y: Sys, lo: nat, op: Op, y': Sys, p: nat)
    requires op.MapHigh? && Invariant(y, lo) && Next(y, lo, op, y')
    ensures PageOk(y', lo, p) && PageMoved(y, op.id, y', p)
  {
    hide Invariant, SpaceOk, OwnerOk, Partition, Next, Backing;
    var taken := MapHighFacts(y, lo, op, y', p);
    MapHighSpaceOk(y, lo, op, y');
    InvariantAt(y, lo, op.id);
    PartitionAt(y, lo, p);
    OwnerAt(y, op.id, p);
  }

  /** What mappages does with one page, without looking at translations. */
  lemma MapHighFacts(y: Sys, lo: nat, op: Op, y': Sys, p: nat) returns (taken: seq<nat>)
    requires op.MapHigh? && Next(y, lo, op, y')
    ensures |y'.mem| == |y.mem| && op.id in y.spaces && op.id in y'.spaces && y'.others == y.others
    ensures y'.spaces[op.id].t == op.t && y'.spaces[op.id].n == y.spaces[op.id].n && y'.spaces.Keys == y.spaces.Keys
    ensures p < |y.mem| && p !in op.t.role ==> y'.mem[p] == y.mem[p]
    ensures p in y.free <==> p in y'.free || p in taken
    ensures p in op.t.role <==> p in y.spaces[op.id].t.role || p in taken
    ensures p in op.t.role ==> p !in y'.free
    ensures p in y'.owner <==> p in y.owner || p in op.t.role
    ensures p in y'.owner ==> y'.owner[p] == if p in y.owner then y.owner[p] else op.id
  {
    hide Mapped, TookTables, Uses, TreeOk;
    taken := NewTables(y.free, y'.free, y.spaces[op.id].t, op.t, p);
    UsesNone();
    assert p in y'.owner <==> p in y.owner || p in op.t.role || Uses([], p);
  }

  lemma NewTables(f: seq<nat>, f': seq<nat>, t: Tree, t': Tree, p: nat) returns (taken: seq<nat>)
    requires TookTables(f, f', t, t')
    ensures (p in f <==> p in f' || p in taken) && (p in t'.role <==> p in t.role || p in taken)
  {
    taken := f[..|f| - |f'|];
    assert f == taken + f';
  }

  lemma AllMoved(y: Sys, id: nat, y': Sys, other: nat)
    requires other != id && forall p: nat :: PageMoved(y, id, y', p)
    ensures |y'.mem| == |y.mem|
    ensures id in y'.spaces && OwnerOk(y', id)
    ensures forall p :: p in y.owner && y.owner[p] == other ==> p < |y.mem| && y'.mem[p] == y.mem[p] && p !in y'.free
    ensures forall p: nat :: p in y.owner && y.owner[p] == other <==> p in y'.owner && y'.owner[p] == other
  {
    hide Owns;
    assert PageMoved(y, id, y', 0);
    forall p | p in y.owner && y.owner[p] == other
      ensures p < |y.mem| && y'.mem[p] == y.mem[p] && p !in y'.free
    {
      assert PageMoved(y, id, y', p);
    }
    forall p: nat
      ensures p in y.owner && y.owner[p] == other <==> p in y'.owner && y'.owner[p] == other
      ensures Owns(y'.mem, y'.spaces[id], p) <==> p in y'.owner && y'.owner[p] == id
    {
      assert PageMoved(y, id, y', p);
    }
  }

  lemma MapHighKeeps(y: Sys, lo: nat, op: Op, y': Sys)
    requires op.MapHigh? && Invariant(y, lo) && Next(y, lo, op, y')
    ensures Invariant(y', lo)
  {
    hide SpaceOk, OwnerOk, Partition, PageOk, PageMoved, Within, Mapped, Space;
    MapHighSpaceOk(y, lo, op, y');
    forall p: nat
      ensures PageOk(y', lo, p) && PageMoved(y, op.id, y', p)
    {
      MapHighPage(y, lo, op, y', p);
    }
    PartitionAll(y', lo);
    AllMoved(y, op.id, y', op.id + 1);
    forall other | other in y'.spaces && other != op.id
      ensures SpaceOk(y'.mem, y'.free, lo, y'.spaces[other]) && OwnerOk(y', other)
    {
      AllMoved(y, op.id, y', other);
      Bystander(y, lo, y', op.id, other);
    }
  }

  lemma UnmapHighSpaceOk(y: Sys, lo: nat, id: nat, v: nat, y': Sys)
    requires id in y.spaces && id in y'.spaces && Invariant(y, lo) && Next(y, lo, UnmapHigh(id, v), y')
    ensures SpaceOk(y'.mem, y'.free, lo, y'.spaces[id]) && |y'.mem| == |y.mem| && y'.free == y.free
    ensures forall p: nat :: Owns(y'.mem, y'.spaces[id], p) <==> Owns(y.mem, y.spaces[id], p)
    ensures forall p :: 0 <= p < |y.mem| && p !in y.spaces[id].t.role ==> y'.mem[p] == y.mem[p]
  {
    hide TreeOk, Lookup, OwnerOk, Partition, Backing;
    var s := y.spaces[id];
    assert SpaceOk(y.mem, y.free, lo, s);
    BackingSame(y.mem, s.t, y'.mem, s.t, 0, s.n);
    forall w | 0 <= w < s.n
      ensures Lookup(y'.mem, s.t, w) == Lookup(y.mem, s.t, w)
    {
    }
    forall w | s.n <= w < MAXVPN
      ensures Lookup(y'.mem, s.t, w) == LeafIn(y'.spaces[id].high, w)
    {
      assert Lookup(y.mem, s.t, w) == LeafIn(s.high, w);
    }
  }

  lemma UnmapHighPage(y: Sys, lo: nat, id: nat, v: nat, y': Sys, p: nat)
    requires Invariant(y, lo) && Next(y, lo, UnmapHigh(id, v), y')
    ensures PageOk(y', lo, p) && PageMoved(y, id, y', p)
  {
    hide Invariant, SpaceOk, OwnerOk, Partition, Unmapped, Owns;
    UnmapHighSpaceOk(y, lo, id, v, y');
    InvariantAt(y, lo, id);
    PartitionAt(y, lo, p);
    OwnerAt(y, id, p);
  }

  lemma UnmapHighKeeps(y: Sys, lo: nat, id: nat, v: nat, y': Sys)
    requires Invariant(y, lo) && Next(y, lo, UnmapHigh(id, v), y')
    ensures Invariant(y', lo)
  {
    hide SpaceOk, OwnerOk, Partition, PageOk, PageMoved, Unmapped;
    UnmapHighSpaceOk(y, lo, id, v, y');
    forall p: nat
      ensures PageOk(y', lo, p) && PageMoved(y, id, y', p)
    {
      UnmapHighPage(y, lo, id, v, y', p);
    }
    PartitionAll(y', lo);
    AllMoved(y, id, y', id + 1);
    forall other | other in y'.spaces && other != id
      ensures SpaceOk(y'.mem, y'.free, lo, y'.spaces[other]) && OwnerOk(y', other)
    {
      AllMoved(y, id, y', other);
      Bystander(y, lo, y', id, other);
    }
  }

  // ----- destroying and creating

  lemma DestroyPage(y: Sys, lo: nat, id: nat, y': Sys, p: nat)
    requires Invariant(y, lo) && Next(y, lo, Destroy(id), y')
    ensures PageOk(y', lo, p)
    ensures p in y.owner && y.owner[p] != id ==>
              p < |y.mem| && |y'.mem| == |y.mem| && y'.mem[p] == y.mem[p] && p !in y'.free
    ensures p in y'.owner <==> p in y.owner && y.owner[p] != id
    ensures p in y'.owner ==> y'.owner[p] == y.owner[p]
  {
    hide SpaceOk, OwnerOk, Partition, Backing;
    PartitionAt(y, lo, p);
    OwnerAt(y, id, p);
  }

  lemma DestroyKeeps(y: Sys, lo: nat, id: nat, y': Sys)
    requires Invariant(y, lo) && Next(y, lo, Destroy(id), y')
    ensures Invariant(y', lo)
  {
    hide SpaceOk, OwnerOk, Partition, PageOk, Backing;
    forall p: nat
      ensures PageOk(y', lo, p)
      ensures p in y.owner && y.owner[p] != id ==>
                p < |y.mem| && |y'.mem| == |y.mem| && y'.mem[p] == y.mem[p] && p !in y'.free
      ensures p in y'.owner <==> p in y.owner && y.owner[p] != id
      ensures p in y'.owner ==> y'.owner[p] == y.owner[p]
    {
      DestroyPage(y, lo, id, y', p);
    }
    PartitionAll(y', lo);
    forall other | other in y'.spaces
      ensures SpaceOk(y'.mem, y'.free, lo, y'.spaces[other]) && OwnerOk(y', other)
    {
      Bystander(y, lo, y', id, other);
    }
  }

  lemma CreateKeeps(y: Sys, lo: nat, id: nat, y': Sys)
    requires Invariant(y, lo) && Next(y, lo, Create(id), y')
    ensures Invariant(y', lo)
  {
    hide SpaceOk, OwnerOk, PageOk, Partition;
    forall p: nat
      ensures PageOk(y', lo, p)
    {
      CreatePage(y, lo, id, y', p);
    }
    PartitionAll(y', lo);
    NewSpace(y, lo, id, y');
    forall other | other in y'.spaces && other != id
      ensures SpaceOk(y'.mem, y'.free, lo, y'.spaces[other]) && OwnerOk(y', other)
    {
      CreateBystander(y, lo, id, y', other);
    }
  }

  lemma CreateBystander(y: Sys, lo: nat, id: nat, y': Sys, other: nat)
    requires Invariant(y, lo) && Next(y, lo, Create(id), y') && other in y'.spaces && other != id
    ensures SpaceOk(y'.mem, y'.free, lo, y'.spaces[other]) && OwnerOk(y', other)
  {
    hide SpaceOk, OwnerOk, PageOk, Partition;
    var root := y.free[0];
    RootIsFree(y, lo);
    forall q | q in y'.free
      ensures q in y.free
    {
      FreeRest(y.free, q);
    }
    OthersUntouched(y, lo, y', root);
    Bystander(y, lo, y', id, other);
  }

  lemma RootIsFree(y: Sys, lo: nat)
    requires Partition(y, lo) && y.free != []
    ensures y.free[0] !in y.owner
  {
    PartitionAt(y, lo, y.free[0]);
    FreeRest(y.free, y.free[0]);
  }

  lemma CreatePage(y: Sys, lo: nat, id: nat, y': Sys, p: nat)
    requires Invariant(y, lo) && Next(y, lo, Create(id), y')
    ensures PageOk(y', lo, p)
  {
    hide SpaceOk, OwnerOk, Partition;
    PartitionAt(y, lo, p);
    FreeRest(y.free, p);
    PartitionAt(y, lo, y.free[0]);
  }

  lemma FreeRest(free: seq<nat>, p: nat)
    requires free != []
    ensures p in free <==> p == free[0] || p in free[1..]
  {
    assert free == [free[0]] + free[1..];
  }

  lemma NewSpace(y: Sys, lo: nat, id: nat, y': Sys)
    requires Invariant(y, lo) && Next(y, lo, Create(id), y')
    ensures SpaceOk(y'.mem, y'.free, lo, y'.spaces[id]) && OwnerOk(y', id)
  {
    hide SpaceOk, Owns, Partition;
    var root := y.free[0];
    forall p: nat
      ensures Owns(y'.mem, y'.spaces[id], p) <==> p == root
      ensures p in y.owner ==> y.owner[p] != id
    {
      EmptySpaceOk(y'.mem, y'.free, lo, root, p);
      PartitionAt(y, lo, p);
    }
    EmptySpaceOk(y'.mem, y'.free, lo, root, root);
  }

  lemma EmptySpaceOk(mem: Mem, free: seq<nat>, lo: nat, root: nat, p: nat)
    requires lo <= root < |mem| && mem[root] == Page(ZeroWords()) && root !in free
    ensures SpaceOk(mem, free, lo, AddressSpace(EmptyTree(root), 0, map[]))
    ensures Owns(mem, AddressSpace(EmptyTree(root), 0, map[]), p) <==> p == root
  {
    EmptyTreeOk(mem, root);
    hide TreeOk, Lookup;
  }

  /** The pages of address spaces are not written and stay allocated while only page p, which none owns, is. */
  lemma OthersUntouched(y: Sys, lo: nat, y': Sys, p: nat)
    requires Partition(y, lo) && p !in y.owner && |y'.mem| == |y.mem|
    requires forall q :: 0 <= q < |y.mem| && q != p ==> y'.mem[q] == y.mem[q]
    requires forall q :: q in y'.free ==> q in y.free || q == p
    ensures forall q :: q in y.owner ==> q < |y.mem| && y'.mem[q] == y.mem[q] && q !in y'.free
  {
  }

  lemma OtherKeeps(y: Sys, lo: nat, op: Op, y': Sys)
    requires Invariant(y, lo) && Next(y, lo, op, y') && (op.TakeOther? || op.GiveOther?)
    ensures Invariant(y', lo)
  {
    hide SpaceOk, OwnerOk, PageOk;
    forall p: nat
      ensures PageOk(y', lo, p)
    {
      OtherPage(y, lo, op, y', p);
    }
    PartitionAll(y', lo);
    if op.TakeOther? {
      assert y.free[0] in y.free;
    }
    forall id | id in y'.spaces
      ensures SpaceOk(y'.mem, y'.free, lo, y'.spaces[id]) && OwnerOk(y', id)
    {
      OthersUntouched(y, lo, y', op.p);
      Bystander(y, lo, y', id + 1, id);
    }
  }

  lemma OtherPage(y: Sys, lo: nat, op: Op, y': Sys, p: nat)
    requires Invariant(y, lo) && Next(y, lo, op, y') && (op.TakeOther? || op.GiveOther?)
    ensures PageOk(y', lo, p)
  {
    hide SpaceOk, OwnerOk, Partition;
    PartitionAt(y, lo, p);
    PartitionAt(y, lo, op.p);
    if op.TakeOther? {
      FreeRest(y.free, p);
    }
  }

  // ----- address spaces are isolated

  predicate Elsewhere(y: Sys, id: nat, p: nat) {
    p in y.owner && y.owner[p] != id
  }

  /** Page p, if it belongs to another address space or another user, still does, with the same contents. */
  ghost predicate KeptPage(y: Sys, id: nat, y': Sys, p: nat) {
    && (Elsewhere(y, id, p) <==> Elsewhere(y', id, p))
    && (Elsewhere(y, id, p) ==> y'.owner[p] == y.owner[p])
    && (Elsewhere(y, id, p) || p in y.others ==> p < |y.mem| && p < |y'.mem| && y'.mem[p] == y.mem[p])
  }

  /** Nothing outside address space id has changed. */
  ghost predicate Kept(y: Sys, id: nat, y': Sys) {
    && |y'.mem| == |y.mem| && y'.others == y.others && y'.spaces - {id} == y.spaces - {id}
    && forall p: nat :: KeptPage(y, id, y', p)
  }

  lemma KeptTrans(y0: Sys, y1: Sys, y2: Sys, id: nat)
    requires Kept(y0, id, y1) && Kept(y1, id, y2)
    ensures Kept(y0, id, y2)
  {
    hide KeptPage;
    forall p: nat
      ensures KeptPage(y0, id, y2, p)
    {
      KeptPageTrans(y0, y1, y2, id, p);
    }
  }

  lemma KeptPageTrans(y0: Sys, y1: Sys, y2: Sys, id: nat, p: nat)
    requires KeptPage(y0, id, y1, p) && KeptPage(y1, id, y2, p) && y1.others == y0.others
    ensures KeptPage(y0, id, y2, p)
  {
  }

  predicate OnSpace(op: Op) {
    !op.TakeOther? && !op.GiveOther?
  }

  lemma GrowKept(y: Sys, lo: nat, op: Op, y': Sys, p: nat)
    requires op.Grow? && op.id in y'.spaces && Invariant(y, lo) && Next(y, lo, op, y')
    ensures KeptPage(y, op.id, y', p)
  {
    hide Invariant, SpaceOk, OwnerOk, Partition, Extended, Owns, Uses, Account;
    GrowPage(y, lo, op.id, op.t, op.want, y', p);
    GrowPages(y, lo, op.id, op.t, op.want, y');
    AccountAt(y, lo, op.id, op.t, op.want, y', p);
    InvariantAt(y, lo, op.id);
    PartitionAt(y, lo, p);
    OwnerAt(y, op.id, p);
  }

  lemma ShrinkKept(y: Sys, lo: nat, op: Op, y': Sys, p: nat)
    requires op.Shrink? && Invariant(y, lo) && Next(y, lo, op, y')
    ensures KeptPage(y, op.id, y', p)
  {
    hide Invariant, SpaceOk, OwnerOk, Partition, Backing, TreeOk, Lookup, PageOk;
    ShrinkPage(y, lo, op.id, op.n, y', p);
    InvariantAt(y, lo, op.id);
    OtherUntouched(y, lo, op.id, p);
    BackingJoin(y.mem, y.spaces[op.id].t, op.n, y.spaces[op.id].n - op.n);
  }

  /** A page of another user is no part of an address space. */
  lemma OtherUntouched(y: Sys, lo: nat, id: nat, p: nat)
    requires id in y.spaces && Partition(y, lo) && OwnerOk(y, id)
    ensures p in y.others ==> lo <= p < |y.mem| && p !in y.free && p !in y.owner && !Owns(y.mem, y.spaces[id], p)
  {
    hide Owns;
    OwnerAt(y, id, p);
  }

  lemma DestroyKept(y: Sys, lo: nat, op: Op, y': Sys, p: nat)
    requires op.Destroy? && Invariant(y, lo) && Next(y, lo, op, y')
    ensures KeptPage(y, op.id, y', p)
  {
    hide Invariant, SpaceOk, OwnerOk, Partition, Backing, PageOk;
    DestroyPage(y, lo, op.id, y', p);
    InvariantAt(y, lo, op.id);
    OtherUntouched(y, lo, op.id, p);
  }

  lemma HighKept(y: Sys, lo: nat, op: Op, y': Sys, p: nat)
    requires (op.MapHigh? || op.UnmapHigh?) && op.id in y.spaces && op.id in y'.spaces
    requires Invariant(y, lo) && Next(y, lo, op, y')
    ensures KeptPage(y, op.id, y', p)
  {
    hide Invariant, SpaceOk, OwnerOk, Partition, PageOk, Next;
    InvariantAt(y, lo, op.id);
    PartitionAt(y, lo, p);
    OtherUntouched(y, lo, op.id, p);
    if op.MapHigh? {
      MapHighPage(y, lo, op, y', p);
      var taken := MapHighFacts(y, lo, op, y', p);
    } else {
      UnmapHighPage(y, lo, op.id, op.v, y', p);
      UnmapHighSpaceOk(y, lo, op.id, op.v, y');
    }
  }

  lemma CreateKept(y: Sys, lo: nat, op: Op, y': Sys, p: nat)
    requires op.Create? && Invariant(y, lo) && Next(y, lo, op, y')
    ensures KeptPage(y, op.id, y', p)
  {
    hide SpaceOk, OwnerOk, Partition;
    PartitionAt(y, lo, p);
    PartitionAt(y, lo, y.free[0]);
  }

  /** Work on one address space leaves every other one, and every page of another user, as it was. */
  lemma Isolation(y: Sys, lo: nat, op: Op, y': Sys)
    requires OnSpace(op) && Invariant(y, lo) && Next(y, lo, op, y')
    ensures Kept(y, op.id, y')
  {
    hide KeptPage, Invariant, Next;
    SameElsewhere(y, lo, op, y');
    forall p: nat
      ensures KeptPage(y, op.id, y', p)
    {
      OpKept(y, lo, op, y', p);
    }
  }

  lemma SameElsewhere(y: Sys, lo: nat, op: Op, y': Sys)
    requires OnSpace(op) && Next(y, lo, op, y')
    ensures |y'.mem| == |y.mem| && y'.others == y.others && y'.spaces - {op.id} == y.spaces - {op.id}
    ensures (!op.Create? ==> op.id in y.spaces) && (!op.Destroy? ==> op.id in y'.spaces)
  {
    hide Space, Mapped, TookTables, Lookup, Account, Backing, Added, Left, Dropped;
  }

  lemma OpKept(y: Sys, lo: nat, op: Op, y': Sys, p: nat)
    requires OnSpace(op) && (!op.Create? ==> op.id in y.spaces) && (!op.Destroy? ==> op.id in y'.spaces)
    requires Invariant(y, lo) && Next(y, lo, op, y')
    ensures KeptPage(y, op.id, y', p)
  {
    hide KeptPage, Invariant, Next;
    match op
    case Create(id) => CreateKept(y, lo, op, y', p);
    case Grow(id, t, want) => GrowKept(y, lo, op, y', p);
    case Shrink(id, n) => ShrinkKept(y, lo, op, y', p);
    case Destroy(id) => DestroyKept(y, lo, op, y', p);
    case MapHigh(id, t, v, leaf, ok) => HighKept(y, lo, op, y', p);
    case UnmapHigh(id, v) => HighKept(y, lo, op, y', p);
  }

  /** An address space that has come and gone leaves memory as it was before. */
  lemma ComeAndGone(y: Sys, lo: nat, id: nat, y': Sys)
    requires Invariant(y, lo) && Invariant(y', lo) && Kept(y, id, y') && id !in y.spaces && id !in y'.spaces
    ensures y'.spaces == y.spaces && y'.owner == y.owner && forall p :: p in y'.free <==> p in y.free
  {
    hide SpaceOk, OwnerOk, Partition;
    assert y.spaces - {id} == y.spaces && y'.spaces - {id} == y'.spaces;
    forall p: nat
      ensures p in y'.owner <==> p in y.owner
      ensures p in y.owner ==> y'.owner[p] == y.owner[p]
      ensures p in y'.free <==> p in y.free
    {
      PartitionAt(y, lo, p);
      PartitionAt(y', lo, p);
      assert KeptPage(y, id, y', p);
    }
  }

  // ----- runs

  ghost predicate IsRun(states: seq<Sys>, lo: nat, ops: seq<Op>) {
    |states| == |ops| + 1 && forall k :: 0 <= k < |ops| ==> Next(states[k], lo, ops[k], states[k + 1])
  }

  /** After kinit every page from lo on is free. */
  ghost predicate Boot(y: Sys, lo: nat) {
    AllFrom(y.free, lo, |y.mem|) && y.spaces == map[] && y.owner == map[] && y.others == {}
  }

  lemma StepKeeps(y: Sys, lo: nat, op: Op, y': Sys)
    requires Invariant(y, lo) && Next(y, lo, op, y')
    ensures Invariant(y', lo)
  {
    hide Invariant, Next;
    match op
    case Create(id) => CreateKeeps(y, lo, id, y');
    case Grow(id, t, want) => GrowKeeps(y, lo, id, t, want, y');
    case Shrink(id, n) => ShrinkKeeps(y, lo, id, n, y');
    case Destroy(id) => DestroyKeeps(y, lo, id, y');
    case MapHigh(id, t, v, leaf, ok) => MapHighKeeps(y, lo, op, y');
    case UnmapHigh(id, v) => UnmapHighKeeps(y, lo, id, v, y');
    case TakeOther(p) => OtherKeeps(y, lo, op, y');
    case GiveOther(p) => OtherKeeps(y, lo, op, y');
  }

  /**
   On every run each page is free, or in exactly one address space, or with another user; none is lost and none is
   shared.
   */
  lemma {:induction false} RunKeeps(states: seq<Sys>, lo: nat, ops: seq<Op>, k: nat)
    requires IsRun(states, lo, ops) && Boot(states[0], lo) && k < |states|
    ensures Invariant(states[k], lo)
    decreases k
  {
    if k > 0 {
      RunKeeps(states, lo, ops, k - 1);
      hide Invariant, Next;
      assert Next(states[k - 1], lo, ops[k - 1], states[k]);
      StepKeeps(states[k - 1], lo, ops[k - 1], states[k]);
    }
  }

  /** When the last address space and the last other user are gone, every page is free again. */
  lemma NothingLost(states: seq<Sys>, lo: nat, ops: seq<Op>, k: nat)
    requires IsRun(states, lo, ops) && Boot(states[0], lo) && k < |states|
    requires states[k].spaces == map[] && states[k].others == {}
    ensures AllFrom(states[k].free, lo, |states[k].mem|)
  {
    RunKeeps(states, lo, ops, k);
    forall p: nat
      ensures p in states[k].free <==> lo <= p < |states[k].mem|
    {
      PartitionAt(states[k], lo, p);
    }
  }
}
