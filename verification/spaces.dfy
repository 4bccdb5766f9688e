/**
 The address spaces of processes over one physical memory: uvmcreate, uvmalloc, uvmcopy, uvmdealloc, uvmfree and the
 mapping of trampoline and trapframe, called as kernel/proc.c calls them. The invariant of Conservation gives each call
 what it needs, none of them panics, and each takes a step of Conservation.
 */
module Spaces {
  import opened Common
  import opened PageTable
  import opened Vm
  import opened Conservation

  /** Page numbers of TRAMPOLINE and TRAPFRAME. */
  const TRAMPOLINE: nat := MAXVPN - 1
  const TRAPFRAME: nat := MAXVPN - 2

  /** Permission to read and execute, and to read and write. */
  const PERM_RX: nat := 10
  const PERM_RW: nat := 6

  /** One past the largest unsigned int. */
  const UINT: int := 0x1_0000_0000

  // ----- what the invariant gives to each call

  lemma SpaceHolds(y: Sys, lo: nat, id: nat)
    requires Invariant(y, lo) && id in y.spaces
    ensures Space(y.mem, y.free, lo, y.spaces[id].t)
  {
    InvariantAt(y, lo, id);
    hide Invariant;
  }

  /** Nothing in high is mapped below page n. */
  ghost predicate ClearBelow(s: AddressSpace, n: nat) {
    n <= MAXVPN && forall v :: v in s.high ==> n <= v
  }

  lemma GrowReady(y: Sys, lo: nat, id: nat, n: nat)
    requires Invariant(y, lo) && id in y.spaces && y.spaces[id].n <= n && ClearBelow(y.spaces[id], n)
    ensures FreshRange(y.mem, y.spaces[id].t, y.spaces[id].n, n - y.spaces[id].n)
  {
    hide Invariant, Partition, OwnerOk, Lookup, Space, Freeable, LeafRange;
    InvariantAt(y, lo, id);
    var s := y.spaces[id];
    forall v | s.n <= v < n
      ensures Lookup(y.mem, s.t, v) == None
    {
      assert Lookup(y.mem, s.t, v) == LeafIn(s.high, v);
    }
  }

  lemma ShrinkReady(y: Sys, lo: nat, id: nat, n: nat)
    requires Invariant(y, lo) && id in y.spaces && n <= y.spaces[id].n
    ensures Freeable(y.mem, y.free, lo, y.spaces[id].t, n, y.spaces[id].n - n)
    ensures LeafRange(y.mem, y.spaces[id].t, n, y.spaces[id].n - n)
  {
    hide Invariant, Partition, OwnerOk, Lookup, Space, HighOk, Freeable, LeafRange;
    InvariantAt(y, lo, id);
    UpperPart(y.mem, y.free, lo, y.spaces[id].t, n, y.spaces[id].n);
  }

  lemma UpperPart(mem: Mem, free: seq<nat>, lo: nat, t: Tree, n: nat, all: nat)
    requires n <= all && Freeable(mem, free, lo, t, 0, all) && LeafRange(mem, t, 0, all)
    ensures Freeable(mem, free, lo, t, n, all - n) && LeafRange(mem, t, n, all - n)
  {
    hide Lookup;
  }

  lemma DestroyReady(y: Sys, lo: nat, id: nat)
    requires Invariant(y, lo) && id in y.spaces && y.spaces[id].high == map[]
    ensures Freeable(y.mem, y.free, lo, y.spaces[id].t, 0, y.spaces[id].n)
    ensures LeafRange(y.mem, y.spaces[id].t, 0, y.spaces[id].n) && NoneAbove(y.mem, y.spaces[id].t, y.spaces[id].n)
    ensures LeavesAbove(y.mem, y.spaces[id].t, y.spaces[id].n)
  {
    hide Invariant, Partition, OwnerOk, Lookup, Space, Freeable, LeafRange;
    InvariantAt(y, lo, id);
    var s := y.spaces[id];
    forall v | s.n <= v < MAXVPN
      ensures Lookup(y.mem, s.t, v) == None
    {
      assert Lookup(y.mem, s.t, v) == LeafIn(s.high, v);
    }
  }

  lemma MapReady(y: Sys, lo: nat, id: nat, v: nat)
    requires Invariant(y, lo) && id in y.spaces && y.spaces[id].n <= v < MAXVPN && v !in y.spaces[id].high
    ensures FreshRange(y.mem, y.spaces[id].t, v, 1)
  {
    hide Invariant, Partition, OwnerOk, Lookup, Space, Freeable, LeafRange;
    InvariantAt(y, lo, id);
    assert Lookup(y.mem, y.spaces[id].t, v) == LeafIn(y.spaces[id].high, v);
  }

  lemma UnmapReady(y: Sys, lo: nat, id: nat, v: nat)
    requires Invariant(y, lo) && id in y.spaces && v in y.spaces[id].high && y.spaces[id].high[v].flags != PTE_V
    ensures LeafRange(y.mem, y.spaces[id].t, v, 1)
  {
    hide Invariant, Partition, OwnerOk, Lookup, Space, Freeable;
    InvariantAt(y, lo, id);
    assert Lookup(y.mem, y.spaces[id].t, v) == LeafIn(y.spaces[id].high, v);
  }

  /** Two address spaces share no page. */
  lemma CopyReady(y: Sys, lo: nat, from: nat, to: nat)
    requires Invariant(y, lo) && from in y.spaces && to in y.spaces && from != to
    ensures Apart(y.mem, y.free, y.spaces[from].t, y.spaces[to].t, y.spaces[from].n)
    ensures LeafRange(y.mem, y.spaces[from].t, 0, y.spaces[from].n)
  {
    hide Invariant, Partition, OwnerOk, Lookup, Space, HighOk, Owns, Backing;
    InvariantAt(y, lo, from);
    InvariantAt(y, lo, to);
    var s, s' := y.spaces[from], y.spaces[to];
    forall p | p in s.t.role
      ensures p !in s'.t.role
    {
      NotShared(y, from, to, p);
    }
    forall v | 0 <= v < s.n && Lookup(y.mem, s.t, v).Some?
      ensures Lookup(y.mem, s.t, v).value.ppn !in s'.t.role
    {
      InBacking(y.mem, s.t, 0, s.n, v);
      NotShared(y, from, to, Lookup(y.mem, s.t, v).value.ppn);
    }
  }

  lemma NotShared(y: Sys, from: nat, to: nat, p: nat)
    requires from in y.spaces && to in y.spaces && from != to && OwnerOk(y, from) && OwnerOk(y, to)
    requires p in y.spaces[from].t.role || p in Backing(y.mem, y.spaces[from].t, 0, y.spaces[from].n)
    ensures p !in y.spaces[to].t.role
  {
    hide OwnerOk, Backing;
    OwnerAt(y, from, p);
    OwnerAt(y, to, p);
  }

  // ----- owners

  ghost function PagesOf(want: seq<Leaf>): set<nat> {
    set leaf | leaf in want :: leaf.ppn
  }

  lemma PagesOfIs(want: seq<Leaf>)
    ensures forall p: nat :: p in PagesOf(want) <==> Uses(want, p)
  {
    forall p: nat
      ensures p in PagesOf(want) <==> Uses(want, p)
    {
      if Uses(want, p) {
        var j :| 0 <= j < |want| && want[j].ppn == p;
        assert want[j] in want;
      }
    }
  }

  /** The new tables and pages belong to id. */
  ghost function WithPages(owner: map<nat, nat>, id: nat, t: Tree, want: seq<Leaf>): (owner': map<nat, nat>)
    ensures Added(owner, id, t, want, owner')
  {
    PagesOfIs(want);
    map p | p in owner.Keys + t.role.Keys + PagesOf(want) :: if p in owner then owner[p] else id
  }

  ghost function WithoutPages(owner: map<nat, nat>, gone: seq<nat>): (owner': map<nat, nat>)
    ensures Dropped(owner, gone, owner')
  {
    map p | p in owner && p !in gone :: owner[p]
  }

  ghost function WithoutSpace(owner: map<nat, nat>, id: nat): (owner': map<nat, nat>)
    ensures Left(owner, id, owner')
  {
    map p | p in owner && owner[p] != id :: owner[p]
  }

  // ----- what each call does is a step

  lemma RootDistinct(mem: Mem, head: nat, free: seq<nat>)
    requires Chain(mem, head, free) && free != []
    ensures free[0] in free && free[0] < |mem| && free[0] !in free[1..]
  {
    ChainPop(mem, head, free);
  }

  lemma ExtendedRoot(m0: Mem, f0: seq<nat>, t0: Tree, m: Mem, f: seq<nat>, t: Tree, lo: nat, start: nat,
                     want: seq<Leaf>)
    requires Extended(m0, f0, t0, m, f, t, lo, start, want)
    ensures t.root == t0.root
  {
  }

  lemma OtherIsAllocated(y: Sys, lo: nat, p: nat)
    requires Invariant(y, lo) && p in y.others
    ensures lo <= p < |y.mem| && p !in y.free
  {
    PartitionAt(y, lo, p);
  }

  lemma CopiedFlags(m0: Mem, tp: Tree, m: Mem, n: nat, want: seq<Leaf>)
    requires LeafRange(m0, tp, 0, n) && |want| <= n && CopyOf(m0, tp, m, want)
    ensures forall j :: 0 <= j < |want| ==> want[j].flags != PTE_V
  {
    hide Lookup;
  }

  lemma GrowStep(y: Sys, lo: nat, id: nat, t: Tree, want: seq<Leaf>, y': Sys)
    requires Invariant(y, lo) && id in y.spaces && (want == [] || ClearBelow(y.spaces[id], y.spaces[id].n + |want|))
    requires forall j :: 0 <= j < |want| ==> want[j].flags != PTE_V
    requires Extended(y.mem, y.free, y.spaces[id].t, y'.mem, y'.free, t, lo, y.spaces[id].n, want)
    requires y'.spaces == y.spaces[id := y.spaces[id].(t := t, n := y.spaces[id].n + |want|)]
    requires y'.others == y.others && Added(y.owner, id, t, want, y'.owner)
    ensures Next(y, lo, Grow(id, t, want), y') && Invariant(y', lo)
  {
    hide Invariant, Extended, Added;
    InvariantAt(y, lo, id);
    SizeFits(y.mem, y.free, lo, y.spaces[id]);
    StepKeeps(y, lo, Grow(id, t, want), y');
  }

  lemma SizeFits(mem: Mem, free: seq<nat>, lo: nat, s: AddressSpace)
    requires SpaceOk(mem, free, lo, s)
    ensures ClearBelow(s, s.n)
  {
    hide Lookup;
  }

  lemma KeptSame(y: Sys, lo: nat, id: nat)
    requires Invariant(y, lo)
    ensures Kept(y, id, y)
  {
    hide SpaceOk, OwnerOk;
  }

  function Wrapped(x: int): nat {
    x % UINT
  }

  lemma WrappedSize(sz: nat, n: int)
    requires sz < UINT && -UINT <= 2 * n < UINT
    ensures Wrapped(sz + n) == if sz + n < 0 then sz + n + UINT else if sz + n >= UINT then sz + n - UINT else sz + n
    ensures Wrapped(sz + n) < UINT
  {
  }

  lemma BelowTrapframe(sz: nat)
    requires sz < UINT
    ensures RoundUp(sz) <= TRAPFRAME
  {
  }

  /** What proc_pagetable maps above the user memory. */
  function ProcessHigh(trampoline: nat, trapframe: nat): map<nat, Leaf> {
    map[TRAMPOLINE := Leaf(trampoline, WithV(PERM_RX)), TRAPFRAME := Leaf(trapframe, WithV(PERM_RW))]
  }

  /** There are free pages for all that address space id needs to grow from oldsz to newsz bytes. */
  ghost predicate CanGrow(y: Sys, id: nat, oldsz: nat, newsz: nat) {
    id in y.spaces && RoundUp(oldsz) <= RoundUp(newsz)
    && PagesNeeded(y.spaces[id].t, RoundUp(oldsz), RoundUp(newsz) - RoundUp(oldsz)) <= |y.free|
  }

  lemma MappedLeaves(mem: Mem, t: Tree, n: nat)
    requires LeafRange(mem, t, 0, n)
    ensures AllMapped(mem, t, n)
  {
    hide Lookup;
  }

  /** The trampoline needs two tables in a new page table, and the trapframe uses the same. */
  lemma TopTables(root: nat)
    ensures TablesNeeded(EmptyTree(root), TRAMPOLINE, 1) == 2
  {
    hide TablesNeeded;
    NeedOne(EmptyTree(root), TRAMPOLINE);
  }

  lemma SharedTables(root: nat, t: Tree)
    requires HasTables(EmptyTree(root), t, TRAMPOLINE, 1)
    ensures TablesNeeded(t, TRAPFRAME, 1) == 0
  {
    hide TablesNeeded, LowKeys, MidKeys;
    KeysOne(TRAMPOLINE);
    NeedOne(t, TRAPFRAME);
  }

  /** When an address space has gone, its pages are free. */
  lemma AllFreed(y: Sys, lo: nat, id: nat, y': Sys)
    requires Invariant(y, lo) && Invariant(y', lo) && Kept(y, id, y') && id !in y'.spaces
    ensures forall p :: p in y'.free <==> p in y.free || (p in y.owner && y.owner[p] == id)
  {
    hide SpaceOk, OwnerOk, Partition;
    forall p: nat
      ensures p in y'.free <==> p in y.free || (p in y.owner && y.owner[p] == id)
    {
      PartitionAt(y, lo, p);
      PartitionAt(y', lo, p);
      assert KeptPage(y, id, y', p);
    }
  }

  class Kernel {
    const memory: Memory
    ghost var spaces: map<nat, AddressSpace>
    ghost var owner: map<nat, nat>
    ghost var others: set<nat>

    ghost function View(): Sys
      reads this, memory
    {
      Sys(memory.mem, memory.free, spaces, owner, others)
    }

    ghost predicate Valid()
      reads this, memory
    {
      memory.Valid() && Invariant(View(), memory.lo)
    }

    /** Address space id exists, with its root table at root and pages for sz bytes. */
    ghost predicate Has(id: nat, root: nat, sz: nat)
      reads this
    {
      id in spaces && spaces[id].t.root == root && spaces[id].n == RoundUp(sz)
    }

    /** After kinit. */
    constructor (lo: nat, mem: Mem)
      requires 0 < lo <= |mem|
      ensures Valid() && fresh(memory) && memory.lo == lo && Boot(View(), lo)
    {
      memory := new Memory(lo, mem);
      spaces, owner, others := map[], map[], {};
    }

    /** uvmcreate */
    method Create(ghost id: nat) returns (root: nat)
      requires Valid() && id !in spaces
      modifies this, memory
      ensures Valid()
      ensures root == 0 <==> old(memory.free) == []
      ensures root == 0 ==> View() == old(View())
      ensures root != 0 ==> Next(old(View()), memory.lo, Op.Create(id), View()) && Kept(old(View()), id, View())
                            && Has(id, root, 0) && spaces[id].high == map[]
      ensures root != 0 ==> spaces[id].t == EmptyTree(root) && |memory.free| == |old(memory.free)| - 1
    {
      hide Chain, Invariant, Lookup, Space;
      ghost var y := View();
      ghost var t;
      root, t := memory.Uvmcreate();
      if root != 0 {
        RootDistinct(y.mem, old(memory.freelist), y.free);
        spaces, owner := spaces[id := AddressSpace(t, 0, map[])], owner[root := id];
        StepKeeps(y, memory.lo, Op.Create(id), View());
        hide Next, Kept;
        Isolation(y, memory.lo, Op.Create(id), View());
      }
    }

    /** uvmalloc: it succeeds, exactly if there are free pages enough, or changes no translation. */
    method Grow(ghost id: nat, root: nat, oldsz: nat, newsz: nat) returns (r: nat, ghost op: Op)
      requires Valid() && Has(id, root, oldsz) && (newsz >= oldsz ==> ClearBelow(spaces[id], RoundUp(newsz)))
      modifies this, memory
      ensures Valid() && op.Grow? && op.id == id && Next(old(View()), memory.lo, op, View())
              && Kept(old(View()), id, View())
      ensures newsz < oldsz ==> r == oldsz && Has(id, root, oldsz)
      ensures newsz >= oldsz ==> if CanGrow(old(View()), id, oldsz, newsz) then r == newsz && Has(id, root, newsz)
                                 else r == 0 && Has(id, root, oldsz)
      ensures id in spaces && spaces[id].high == old(spaces)[id].high
    {
      hide Chain, Invariant, Extended, FreshRange, Space, Lookup, PagesNeeded;
      ghost var y := View();
      ghost var s := spaces[id];
      ghost var t, want, ok;
      SpaceHolds(y, memory.lo, id);
      if newsz >= oldsz {
        RoundUpMono(oldsz, newsz);
        GrowReady(y, memory.lo, id, RoundUp(newsz));
      }
      r, t, want, ok := memory.Uvmalloc(root, oldsz, newsz, s.t);
      ExtendedRoot(y.mem, y.free, s.t, memory.mem, memory.free, t, memory.lo, s.n, want);
      op := Op.Grow(id, t, want);
      spaces, owner := spaces[id := s.(t := t, n := s.n + |want|)], WithPages(owner, id, t, want);
      GrowStep(y, memory.lo, id, t, want, View());
      hide Next, Kept;
      Isolation(y, memory.lo, op, View());
    }

    /** uvmdealloc */
    method Shrink(ghost id: nat, root: nat, oldsz: nat, newsz: nat) returns (r: Result<nat>)
      requires Valid() && Has(id, root, oldsz)
      modifies this, memory
      ensures Valid() && r == Ok(if newsz >= oldsz then oldsz else newsz) && Kept(old(View()), id, View())
      ensures newsz >= oldsz ==> View() == old(View())
      ensures newsz < oldsz ==> Next(old(View()), memory.lo, Op.Shrink(id, RoundUp(newsz)), View())
      ensures Has(id, root, r.value) && spaces[id].high == old(spaces)[id].high
    {
      hide Chain, Invariant, Unmapped, Freeable, LeafRange, Space, Lookup;
      ghost var y := View();
      ghost var s := spaces[id];
      SpaceHolds(y, memory.lo, id);
      KeptSame(y, memory.lo, id);
      if newsz < oldsz {
        RoundUpMono(newsz, oldsz);
        ShrinkReady(y, memory.lo, id, RoundUp(newsz));
      }
      r := memory.Uvmdealloc(root, oldsz, newsz, s.t);
      if newsz < oldsz {
        ghost var n := RoundUp(newsz);
        spaces, owner := spaces[id := s.(n := n)], WithoutPages(owner, Backing(y.mem, s.t, n, s.n - n));
        StepKeeps(y, memory.lo, Op.Shrink(id, n), View());
        hide Next, Kept;
        Isolation(y, memory.lo, Op.Shrink(id, n), View());
      }
    }

    /** uvmcopy of all of a parent's memory into a new address space: the same. */
    method Copy(ghost from: nat, ghost to: nat, parent: nat, child: nat, sz: nat) returns (r: Result<int>, ghost op: Op)
      requires Valid() && Has(from, parent, sz) && Has(to, child, 0) && from != to
               && ClearBelow(spaces[to], RoundUp(sz))
      modifies this, memory
      ensures Valid() && (r == Ok(0) || r == Ok(-1))
      ensures op.Grow? && op.id == to && Next(old(View()), memory.lo, op, View())
      ensures r == Ok(0) <==> CanGrow(old(View()), to, 0, sz)
      ensures r == Ok(0) ==> Has(to, child, sz) && CopyOf(old(memory.mem), old(spaces)[from].t, memory.mem, op.want)
      ensures r == Ok(-1) ==> Has(to, child, 0)
      ensures to in spaces && spaces[to].high == old(spaces)[to].high
    {
      hide Chain, Invariant, Extended, FreshRange, Space, Lookup, LeafRange, Apart, PagesNeeded;
      ghost var y := View();
      ghost var s := spaces[to];
      ghost var t, want;
      SpaceHolds(y, memory.lo, from);
      SpaceHolds(y, memory.lo, to);
      CopyReady(y, memory.lo, from, to);
      GrowReady(y, memory.lo, to, RoundUp(sz));
      MappedLeaves(y.mem, spaces[from].t, RoundUp(sz));
      r, t, want := memory.Uvmcopy(parent, child, sz, spaces[from].t, s.t);
      if r == Ok(0) {
        CopiedFlags(y.mem, spaces[from].t, memory.mem, RoundUp(sz), want);
      }
      ExtendedRoot(y.mem, y.free, s.t, memory.mem, memory.free, t, memory.lo, 0, want);
      op := Op.Grow(to, t, want);
      spaces, owner := spaces[to := s.(t := t, n := s.n + |want|)], WithPages(owner, to, t, want);
      GrowStep(y, memory.lo, to, t, want, View());
    }

    /** mappages of one page above the user memory: it succeeds exactly if there are free pages for its tables. */
    method MapHigh(ghost id: nat, root: nat, v: nat, ppn: nat, perm: nat) returns (r: Result<int>, ghost op: Op)
      requires Valid() && id in spaces && spaces[id].t.root == root && perm < 1024
      requires spaces[id].n <= v < MAXVPN && v !in spaces[id].high
      modifies this, memory
      ensures Valid() && (r == Ok(0) || r == Ok(-1))
      ensures op.MapHigh? && op == Op.MapHigh(id, op.t, v, Leaf(ppn, WithV(perm)), r == Ok(0)) && op.t.root == root
      ensures Next(old(View()), memory.lo, op, View()) && Kept(old(View()), id, View())
      ensures op.ok <==> TablesNeeded(old(spaces)[id].t, v, 1) <= |old(memory.free)|
      ensures op.ok ==> |old(memory.free)| - |memory.free| == TablesNeeded(old(spaces)[id].t, v, 1)
                        && HasTables(old(spaces)[id].t, op.t, v, 1)
      ensures var s := old(spaces)[id];
              spaces == old(spaces)[id := s.(t := op.t, high := if op.ok then s.high[v := op.leaf] else s.high)]
    {
      hide Chain, Invariant, Space, Lookup, FreshRange, Within, Mapped, TablesNeeded, HasTables;
      ghost var y := View();
      ghost var s := spaces[id];
      ghost var t, done;
      SpaceHolds(y, memory.lo, id);
      MapReady(y, memory.lo, id, v);
      OnePage(v, ppn);
      r, t, done := memory.MapPages(root, v * PGSIZE, PGSIZE, ppn * PGSIZE, perm, s.t);
      WithinRoot(y.mem, y.free, s.t, memory.mem, memory.free, t);
      ghost var leaf := Leaf(ppn, WithV(perm));
      op := Op.MapHigh(id, t, v, leaf, r == Ok(0));
      spaces := spaces[id := s.(t := t, high := if r == Ok(0) then s.high[v := leaf] else s.high)];
      owner := WithPages(owner, id, t, []);
      StepKeeps(y, memory.lo, op, View());
      hide Next, Kept;
      Isolation(y, memory.lo, op, View());
    }

    /** uvmunmap of such a page, which is not freed. */
    method UnmapHigh(ghost id: nat, root: nat, v: nat) returns (r: Result<()>)
      requires Valid() && id in spaces && spaces[id].t.root == root
      requires v in spaces[id].high && spaces[id].high[v].flags != PTE_V
      modifies this, memory
      ensures Valid() && r.Ok? && Next(old(View()), memory.lo, Op.UnmapHigh(id, v), View())
      ensures Kept(old(View()), id, View())
      ensures spaces == old(spaces)[id := old(spaces)[id].(high := old(spaces)[id].high - {v})]
    {
      hide Chain, Invariant, Space, Lookup, LeafRange, Unmapped;
      ghost var y := View();
      ghost var s := spaces[id];
      SpaceHolds(y, memory.lo, id);
      UnmapReady(y, memory.lo, id, v);
      OnePage(v, v);
      r := memory.Uvmunmap(root, v * PGSIZE, 1, false, s.t);
      spaces := spaces[id := s.(high := s.high - {v})];
      StepKeeps(y, memory.lo, Op.UnmapHigh(id, v), View());
      hide Next, Kept;
      Isolation(y, memory.lo, Op.UnmapHigh(id, v), View());
    }

    /** uvmfree */
    method Destroy(ghost id: nat, root: nat, sz: nat) returns (r: Result<()>)
      requires Valid() && Has(id, root, sz) && spaces[id].high == map[]
      modifies this, memory
      ensures Valid() && r.Ok? && Next(old(View()), memory.lo, Op.Destroy(id), View())
      ensures Kept(old(View()), id, View()) && id !in spaces
    {
      hide Chain, Invariant, Space, Lookup, LeafRange, Freeable, NoneAbove, LeavesAbove, Destroyed;
      ghost var y := View();
      ghost var s := spaces[id];
      SpaceHolds(y, memory.lo, id);
      DestroyReady(y, memory.lo, id);
      r := memory.Uvmfree(root, sz, s.t);
      spaces, owner := spaces - {id}, WithoutSpace(owner, id);
      StepKeeps(y, memory.lo, Op.Destroy(id), View());
      hide Next, Kept;
      Isolation(y, memory.lo, Op.Destroy(id), View());
    }

    /** kalloc for anything but an address space: a trapframe, a pipe, a kernel stack. */
    method Take() returns (p: nat)
      requires Valid()
      modifies this, memory
      ensures Valid()
      ensures p == 0 <==> old(memory.free) == []
      ensures p == 0 ==> View() == old(View())
      ensures p != 0 ==> Next(old(View()), memory.lo, Op.TakeOther(p), View())
    {
      hide Chain, Invariant;
      ghost var y := View();
      p := memory.Kalloc();
      if p != 0 {
        others := others + {p};
        StepKeeps(y, memory.lo, Op.TakeOther(p), View());
      }
    }

    /** kfree of such a page. */
    method Give(p: nat) returns (r: Result<()>)
      requires Valid() && p in others
      modifies this, memory
      ensures Valid() && r.Ok? && Next(old(View()), memory.lo, Op.GiveOther(p), View())
    {
      hide Chain, Invariant;
      ghost var y := View();
      OtherIsAllocated(y, memory.lo, p);
      r := memory.Kfree(p);
      others := others - {p};
      StepKeeps(y, memory.lo, Op.GiveOther(p), View());
    }

    /**
     growproc: sizes are unsigned ints; for a request that leaves their range nothing happens, and it is no failure.
     It fails exactly if there are too few free pages. The process has pages for exactly the size it ends up with.
     */
    method GrowProc(ghost id: nat, root: nat, sz: nat, n: int) returns (r: int, sz': nat)
      requires Valid() && Has(id, root, sz) && sz < UINT && -UINT <= 2 * n < UINT && ClearBelow(spaces[id], TRAPFRAME)
      modifies this, memory
      ensures Valid() && Kept(old(View()), id, View()) && Has(id, root, sz') && spaces[id].high == old(spaces)[id].high
      ensures r == 0 || (r == -1 && sz' == sz)
      ensures r == -1 <==> 0 < n < UINT - sz && !CanGrow(old(View()), id, sz, sz + n)
      ensures r == 0 ==> sz' == if 0 <= sz + n < UINT then sz + n else sz
    {
      hide Invariant, Next, Kept, RoundUp, Wrapped, CanGrow;
      ghost var y := View();
      r, sz' := 0, sz;
      WrappedSize(sz, n);
      KeptSame(y, memory.lo, id);
      if n > 0 {
        var newsz := Wrapped(sz + n);
        BelowTrapframe(newsz);
        ghost var op;
        var got;
        got, op := Grow(id, root, sz, newsz);
        if got == 0 {
          return -1, sz;
        }
        sz' := got;
      } else if n < 0 {
        var newsz := Wrapped(sz + n);
        var got := Shrink(id, root, sz, newsz);
        sz' := got.value;
      }
    }

    /**
     proc_pagetable: a page table with the trampoline and the process's trapframe mapped, or 0. It takes three pages:
     the root and one table of each lower level. With fewer free pages it fails and leaves nothing behind.
     */
    method ProcPagetable(ghost id: nat, trampoline: nat, trapframe: nat) returns (root: nat)
      requires Valid() && id !in spaces
      modifies this, memory
      ensures Valid() && Kept(old(View()), id, View())
      ensures root != 0 <==> |old(memory.free)| >= 3
      ensures root != 0 ==> Has(id, root, 0) && spaces[id].high == ProcessHigh(trampoline, trapframe)
                            && |memory.free| == |old(memory.free)| - 3
      ensures root == 0 ==> spaces == old(spaces) && owner == old(owner)
                            && forall p :: p in memory.free <==> p in old(memory.free)
    {
      hide Invariant, Kept, Next, TablesNeeded, HasTables;
      ghost var y := View();
      KeptSame(y, memory.lo, id);
      root := Create(id);
      if root == 0 {
        return;
      }
      ghost var y1 := View();
      var r;
      ghost var op;
      TopTables(root);
      r, op := MapHigh(id, root, TRAMPOLINE, trampoline, PERM_RX);
      ghost var y2 := View();
      KeptTrans(y, y1, y2, id);
      if r == Ok(-1) {
        var u := Destroy(id, root, 0);
        KeptTrans(y, y2, View(), id);
        ComeAndGone(y, memory.lo, id, View());
        return 0;
      }
      ghost var t := op.t;
      r, op := MapHigh(id, root, TRAPFRAME, trapframe, PERM_RW);
      ghost var y3 := View();
      KeptTrans(y, y2, y3, id);
      if r == Ok(-1) {
        var w := UnmapHigh(id, root, TRAMPOLINE);
        ghost var y4 := View();
        KeptTrans(y, y3, y4, id);
        var u := Destroy(id, root, 0);
        KeptTrans(y, y4, View(), id);
        ComeAndGone(y, memory.lo, id, View());
        root := 0;
        // the trapframe's tables are there already, so this is never reached
        SharedTables(y1.spaces[id].t.root, t);
        assert false;
      }
      SharedTables(root, t);
    }

    /** proc_freepagetable: every page of the address space is free again, and nothing else is touched. */
    method ProcFreePagetable(ghost id: nat, root: nat, sz: nat, ghost trampoline: nat, ghost trapframe: nat)
      requires Valid() && Has(id, root, sz) && spaces[id].high == ProcessHigh(trampoline, trapframe)
      modifies this, memory
      ensures Valid() && Kept(old(View()), id, View()) && id !in spaces
      ensures forall p :: p in memory.free <==> p in old(memory.free) || (p in old(owner) && old(owner)[p] == id)
    {
      hide Invariant, Kept, Next;
      ghost var y := View();
      var r := UnmapHigh(id, root, TRAMPOLINE);
      ghost var y1 := View();
      r := UnmapHigh(id, root, TRAPFRAME);
      ghost var y2 := View();
      KeptTrans(y, y1, y2, id);
      r := Destroy(id, root, sz);
      KeptTrans(y, y2, View(), id);
      AllFreed(y, memory.lo, id, View());
    }
  }
}
