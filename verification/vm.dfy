/**
 kernel/kalloc.c and kernel/vm.c over one physical memory: the free list threaded
 through free pages, and the operations that build, copy and free page tables.
 Physical addresses are page numbers except where the code stores an address.
 */
module Vm {
  import opened Common
  import opened PageTable

  /** A word of the junk that kalloc and kfree fill a page with. */
  const JUNK_ALLOC: nat := 0x0505_0505_0505_0505
  const JUNK_FREE: nat := 0x0101_0101_0101_0101

  // ----- the free list

  /** Address of the k-th free page, or null past the end. */
  function PageAddr(free: seq<nat>, k: nat): nat {
    if k < |free| then free[k] * PGSIZE else 0
  }

  /** Starting at head, the first words of the free pages chain through exactly free, in order. */
  ghost predicate Chain(mem: Mem, head: nat, free: seq<nat>) {
    && head == PageAddr(free, 0)
    && (forall k :: 0 <= k < |free| ==> 0 < free[k] < |mem| && mem[free[k]].words[0] == PageAddr(free, k + 1))
    && Distinct(free)
  }

  /** The free pages are exactly lo, ..., n - 1. */
  ghost predicate AllFrom(free: seq<nat>, lo: nat, n: nat) {
    forall p :: p in free <==> lo <= p < n
  }

  lemma AllFromNone(lo: nat)
    ensures AllFrom([], lo, lo)
  {
  }

  lemma AllFromMore(free: seq<nat>, lo: nat, p: nat)
    requires AllFrom(free, lo, p) && lo <= p
    ensures p !in free && AllFrom([p] + free, lo, p + 1)
  {
  }

  lemma ChainEmpty(mem: Mem)
    ensures Chain(mem, 0, [])
  {
  }

  /** A root table with nothing below it. */
  ghost function EmptyTree(root: nat): Tree {
    Tree(root, map[], map[], map[root := RootTable])
  }

  lemma EmptyTreeOk(mem: Mem, root: nat)
    requires root < |mem| && mem[root] == Page(ZeroWords())
    ensures TreeOk(mem, EmptyTree(root)) && forall v :: 0 <= v < MAXVPN ==> Lookup(mem, EmptyTree(root), v) == None
  {
  }

  lemma ChainFrame(mem: Mem, mem': Mem, head: nat, free: seq<nat>)
    requires Chain(mem, head, free) && |mem'| == |mem| && forall p :: p in free ==> p < |mem| && mem'[p] == mem[p]
    ensures Chain(mem', head, free)
  {
    forall k | 0 <= k < |free|
      ensures 0 < free[k] < |mem'| && mem'[free[k]].words[0] == PageAddr(free, k + 1)
    {
      assert free[k] in free;
    }
  }

  lemma ChainInRange(mem: Mem, head: nat, free: seq<nat>)
    requires Chain(mem, head, free)
    ensures forall p :: p in free ==> p < |mem|
  {
  }

  lemma ChainHead(mem: Mem, head: nat, free: seq<nat>)
    requires Chain(mem, head, free)
    ensures head != 0 <==> free != []
  {
  }

  lemma ChainPop(mem: Mem, head: nat, free: seq<nat>)
    requires Chain(mem, head, free) && free != []
    ensures 0 < free[0] < |mem| && head == free[0] * PGSIZE && head / PGSIZE == free[0]
    ensures Chain(mem, mem[free[0]].words[0], free[1..]) && free[0] !in free[1..]
  {
    var rest := free[1..];
    forall k | 0 <= k < |rest|
      ensures 0 < rest[k] < |mem| && mem[rest[k]].words[0] == PageAddr(rest, k + 1)
    {
      assert rest[k] == free[k + 1];
    }
  }

  lemma ChainPush(mem: Mem, head: nat, free: seq<nat>, p: nat)
    requires Chain(mem, head, free) && 0 < p < |mem| && p !in free && mem[p].words[0] == head
    ensures Chain(mem, p * PGSIZE, [p] + free)
  {
    var more := [p] + free;
    forall k | 0 <= k < |more|
      ensures 0 < more[k] < |mem| && mem[more[k]].words[0] == PageAddr(more, k + 1)
    {
      if k > 0 {
        assert more[k] == free[k - 1];
      }
    }
  }

  // ----- trees in a memory with a free list

  /** A page table whose table pages are allocated. */
  ghost predicate Space(mem: Mem, free: seq<nat>, lo: nat, t: Tree) {
    && TreeOk(mem, t)
    && (forall p :: p in t.role ==> lo <= p < |mem| && p !in free)
  }

  /** From free to rest, pages were taken off the front, and exactly those became table pages. */
  ghost predicate TookTables(free: seq<nat>, rest: seq<nat>, t: Tree, t': Tree) {
    && t'.root == t.root
    && |rest| <= |free| && rest == free[|free| - |rest|..]
    && (forall p :: p in t'.role <==> p in t.role || p in free[..|free| - |rest|])
  }

  /** Pages were taken off the free list, exactly those joined the tree, and no page outside the tree was written. */
  ghost predicate Within(mem: Mem, free: seq<nat>, t: Tree, mem': Mem, free': seq<nat>, t': Tree) {
    && TookTables(free, free', t, t')
    && |mem'| == |mem|
    && (forall p :: 0 <= p < |mem| && p !in t'.role ==> mem'[p] == mem[p])
  }

  /** The memory and tree after a walk that may have added tables: no translation changed. */
  ghost predicate Grown(mem: Mem, free: seq<nat>, t: Tree, mem': Mem, free': seq<nat>, t': Tree) {
    Within(mem, free, t, mem', free', t') && SameTranslations(mem, t, mem', t')
  }

  lemma WithinTrans(m0: Mem, f0: seq<nat>, t0: Tree, m1: Mem, f1: seq<nat>, t1: Tree, m2: Mem, f2: seq<nat>, t2: Tree)
    requires Within(m0, f0, t0, m1, f1, t1) && Within(m1, f1, t1, m2, f2, t2)
    ensures Within(m0, f0, t0, m2, f2, t2)
  {
    var a, b := |f0| - |f1|, |f1| - |f2|;
    assert f0[..a + b] == f0[..a] + f1[..b];
  }

  lemma GrownRefl(mem: Mem, free: seq<nat>, t: Tree)
    ensures Grown(mem, free, t, mem, free, t)
  {
    hide Lookup;
  }

  lemma GrownTrans(m0: Mem, f0: seq<nat>, t0: Tree, m1: Mem, f1: seq<nat>, t1: Tree, m2: Mem, f2: seq<nat>, t2: Tree)
    requires Grown(m0, f0, t0, m1, f1, t1) && Grown(m1, f1, t1, m2, f2, t2)
    ensures Grown(m0, f0, t0, m2, f2, t2)
  {
    hide Lookup, Within;
    WithinTrans(m0, f0, t0, m1, f1, t1, m2, f2, t2);
  }

  /**
   From mem to mem', pages [a, a + n) were mapped to consecutive physical pages from ppn; all other translations are the
   same.
   */
  ghost predicate Mapped(mem: Mem, t: Tree, mem': Mem, t': Tree, a: nat, n: nat, ppn: nat, flags: nat) {
    forall v :: 0 <= v < MAXVPN ==>
      Lookup(mem', t', v) == if a <= v < a + n then Some(Leaf(ppn + (v - a), flags)) else Lookup(mem, t, v)
  }

  lemma MappedNone(mem: Mem, free: seq<nat>, t: Tree, a: nat, ppn: nat, flags: nat)
    ensures Mapped(mem, t, mem, t, a, 0, ppn, flags) && Within(mem, free, t, mem, free, t)
  {
    hide Lookup;
  }

  /** mappages' store, after a walk that may have added tables. */
  lemma MappedOneMore(m0: Mem, f0: seq<nat>, t0: Tree, m1: Mem, f1: seq<nat>, t1: Tree, m2: Mem, f2: seq<nat>, t2: Tree,
                      lo: nat, a: nat, n: nat, ppn: nat, flags: nat, page: nat)
    requires Mapped(m0, t0, m1, t1, a, n, ppn, flags) && Within(m0, f0, t0, m1, f1, t1)
    requires Grown(m1, f1, t1, m2, f2, t2) && Space(m2, f2, lo, t2)
    requires a + n < MAXVPN && Reached(t2, a + n, 0, page) && flags < 1024 && flags % 2 == 1
    ensures page < |m2| && page in t2.role
    ensures var m3 := SetEntry(m2, page, Px0(a + n), MakePte(ppn + n, flags));
            && Mapped(m0, t0, m3, t2, a, n + 1, ppn, flags) && Within(m0, f0, t0, m3, f2, t2) && Space(m3, f2, lo, t2)
  {
    hide TreeOk, Lookup, Within, Reached;
    PteRoundTrip(ppn + n, flags);
    var e := MakePte(ppn + n, flags);
    hide MakePte;
    LeafWrite(m0, f0, t0, m1, f1, t1, m2, f2, t2, lo, a + n, e, page);
    var m3 := SetEntry(m2, page, Px0(a + n), e);
    forall v | 0 <= v < MAXVPN
      ensures Lookup(m3, t2, v) == if a <= v < a + (n + 1) then Some(Leaf(ppn + (v - a), flags)) else Lookup(m0, t0, v)
    {
      assert Lookup(m2, t2, v) == Lookup(m1, t1, v);
    }
  }

  /**
   A store to the leaf slot of vpn, after a walk: one translation changes, and only tables of the tree are written.
   */
  lemma LeafWrite(m0: Mem, f0: seq<nat>, t0: Tree, m1: Mem, f1: seq<nat>, t1: Tree, m2: Mem, f2: seq<nat>, t2: Tree,
                  lo: nat, vpn: nat, e: nat, page: nat)
    requires Within(m0, f0, t0, m1, f1, t1) && Within(m1, f1, t1, m2, f2, t2) && Space(m2, f2, lo, t2)
    requires vpn < MAXVPN && Reached(t2, vpn, 0, page)
    ensures page < |m2| && page in t2.role
    ensures var m3 := SetEntry(m2, page, Px0(vpn), e);
            && Within(m0, f0, t0, m3, f2, t2) && Space(m3, f2, lo, t2)
            && forall v :: 0 <= v < MAXVPN ==> Lookup(m3, t2, v) == if v == vpn then LeafOf(e) else Lookup(m2, t2, v)
  {
    hide TreeOk, Lookup;
    SetLeafKeeps(m2, t2, vpn, e);
    LowIsTable(m2, t2, vpn / 512);
    WithinTrans(m0, f0, t0, m1, f1, t1, m2, f2, t2);
  }

  lemma LowIsTable(mem: Mem, t: Tree, k: nat)
    requires TreeOk(mem, t) && k in t.low
    ensures t.low[k] in t.role
  {
    hide InMemory;
  }

  /** The leaf slot walk returns tells whether the page is mapped. */
  lemma SlotIsLookup(mem: Mem, t: Tree, vpn: nat, page: nat)
    requires TreeOk(mem, t) && Reached(t, vpn, 0, page)
    ensures page < |mem| && LeafOf(mem[page].words[Px0(vpn)]) == Lookup(mem, t, vpn)
  {
  }

  function Px(level: nat, vpn: nat): (i: nat)
    ensures i < ENTRIES
  {
    if level == 2 then Px2(vpn) else if level == 1 then Px1(vpn) else Px0(vpn)
  }

  /** page is the table that holds the level's entry for vpn. */
  ghost predicate Reached(t: Tree, vpn: nat, level: nat, page: nat) {
    if level == 2 then page == t.root
    else if level == 1 then Px2(vpn) in t.mid && t.mid[Px2(vpn)] == page
    else vpn / 512 in t.low && t.low[vpn / 512] == page
  }

  /** A valid entry on the way leads to the tree's next table; an invalid one means there is none. */
  lemma Descend(mem: Mem, t: Tree, vpn: nat, level: nat, page: nat)
    requires TreeOk(mem, t) && vpn < MAXVPN && 0 < level <= 2 && Reached(t, vpn, level, page)
    ensures page < |mem|
    ensures var e := mem[page].words[Px(level, vpn)];
            && (IsValid(e) ==> Reached(t, vpn, level - 1, PtePage(e)))
            && (!IsValid(e) ==> if level == 2 then Px2(vpn) !in t.mid else vpn / 512 !in t.low)
  {
    IndexSplit(vpn);
    var e := Entry(mem, page, Px(level, vpn));
    if level == 2 {
      assert Points(e, t.mid, Px2(vpn));
      if Px2(vpn) in t.mid {
        PteRoundTrip(t.mid[Px2(vpn)], PTE_V);
      }
    } else {
      assert Points(e, t.low, Px2(vpn) * 512 + Px1(vpn));
      if vpn / 512 in t.low {
        PteRoundTrip(t.low[vpn / 512], PTE_V);
      }
    }
  }

  /** The tree with a new table below the one that walk has reached. */
  ghost function Linked(t: Tree, vpn: nat, level: nat, child: nat): Tree {
    if level == 2 then AddMid(t, Px2(vpn), child) else AddLow(t, vpn / 512, child)
  }

  lemma LinkKeeps(mem: Mem, free: seq<nat>, lo: nat, t: Tree, vpn: nat, level: nat, page: nat, child: nat, zeroed: Mem)
    requires Space(mem, free, lo, t) && vpn < MAXVPN && 0 < level <= 2 && Reached(t, vpn, level, page)
    requires page < |mem| && !IsValid(mem[page].words[Px(level, vpn)])
    requires free != [] && child == free[0] && lo <= child < |mem| && child !in free[1..]
    requires zeroed == mem[child := Page(ZeroWords())]
    ensures page in t.role && page != child
    ensures var mem', t' := SetEntry(zeroed, page, Px(level, vpn), MakePte(child, PTE_V)), Linked(t, vpn, level, child);
            && Space(mem', free[1..], lo, t') && Reached(t', vpn, level - 1, child)
            && Grown(mem, free, t, mem', free[1..], t')
  {
    hide TreeOk, Lookup, Reached, SameTranslations;
    assert child in free;
    LinkTree(mem, t, vpn, level, page, child, zeroed);
    assert free[..1] == [child];
    assert forall p :: p in free[1..] ==> p in free;
  }

  lemma LinkTree(mem: Mem, t: Tree, vpn: nat, level: nat, page: nat, child: nat, zeroed: Mem)
    requires TreeOk(mem, t) && vpn < MAXVPN && 0 < level <= 2 && Reached(t, vpn, level, page)
    requires page < |mem| && !IsValid(mem[page].words[Px(level, vpn)]) && child < |mem| && child !in t.role
    requires zeroed == mem[child := Page(ZeroWords())]
    ensures page in t.role && page != child
    ensures var mem', t' := SetEntry(zeroed, page, Px(level, vpn), MakePte(child, PTE_V)), Linked(t, vpn, level, child);
            && TreeOk(mem', t') && SameTranslations(mem, t, mem', t') && Reached(t', vpn, level - 1, child)
            && t'.root == t.root && t'.role.Keys == t.role.Keys + {child}
  {
    IndexSplit(vpn);
    Descend(mem, t, vpn, level, page);
    OtherPagesKeep(mem, zeroed, t);
    ReachedIsTable(t, vpn, level, page);
    hide Roles, InMemory, Lookup, MakePte;
    if level == 2 {
      AddMidKeeps(zeroed, t, Px2(vpn), child);
    } else {
      AddLowKeeps(zeroed, t, vpn / 512, child);
    }
  }

  lemma ReachedIsTable(t: Tree, vpn: nat, level: nat, page: nat)
    requires Roles(t) && vpn < MAXVPN && 0 < level <= 2 && Reached(t, vpn, level, page)
    ensures page in t.role && (level == 1 ==> vpn / 512 / 512 in t.mid && t.mid[vpn / 512 / 512] == page)
    ensures level == 2 ==> Px2(vpn) < ROOT_ENTRIES
  {
    IndexSplit(vpn);
  }

  // ----- the tables that a range of pages needs

  /** Which last-level and which middle tables hold the entries of pages [a, a + n). */
  ghost function LowKeys(a: nat, n: nat): set<nat> {
    set v: nat | a <= v < a + n :: v / 512
  }

  ghost function MidKeys(a: nat, n: nat): set<nat> {
    set v: nat | a <= v < a + n :: v / 512 / 512
  }

  ghost function Lacks(have: set<nat>, want: set<nat>): nat {
    |want - have|
  }

  /** How many of them the tree lacks. */
  ghost function TablesNeeded(t: Tree, a: nat, n: nat): nat {
    Lacks(t.low.Keys, LowKeys(a, n)) + Lacks(t.mid.Keys, MidKeys(a, n))
  }

  /** From t to t', exactly the tables for pages [a, a + n) were added. */
  ghost predicate HasTables(t: Tree, t': Tree, a: nat, n: nat) {
    t'.low.Keys == t.low.Keys + LowKeys(a, n) && t'.mid.Keys == t.mid.Keys + MidKeys(a, n)
  }

  lemma KeysMore(a: nat, n: nat)
    ensures LowKeys(a, n + 1) == LowKeys(a, n) + {(a + n) / 512}
    ensures MidKeys(a, n + 1) == MidKeys(a, n) + {(a + n) / 512 / 512}
  {
    var v := a + n;
    assert v / 512 in LowKeys(a, n + 1) && v / 512 / 512 in MidKeys(a, n + 1);
    assert LowKeys(a, n) <= LowKeys(a, n + 1) <= LowKeys(a, n) + {v / 512};
    assert MidKeys(a, n) <= MidKeys(a, n + 1) <= MidKeys(a, n) + {v / 512 / 512};
  }

  lemma KeysNone(a: nat)
    ensures LowKeys(a, 0) == {} && MidKeys(a, 0) == {}
  {
  }

  lemma KeysOne(v: nat)
    ensures LowKeys(v, 1) == {v / 512} && MidKeys(v, 1) == {v / 512 / 512}
  {
    hide LowKeys, MidKeys;
    KeysNone(v);
    KeysMore(v, 0);
  }

  lemma NeedNone(t: Tree, a: nat)
    ensures TablesNeeded(t, a, 0) == 0 && HasTables(t, t, a, 0)
  {
    hide LowKeys, MidKeys;
    KeysNone(a);
    assert {} - t.low.Keys == {} && {} - t.mid.Keys == {};
  }

  lemma NeedOne(t: Tree, v: nat)
    ensures TablesNeeded(t, v, 1) == (if v / 512 in t.low then 0 else 1) + (if v / 512 / 512 in t.mid then 0 else 1)
  {
    hide LowKeys, MidKeys;
    KeysOne(v);
    assert {v / 512} - t.low.Keys == if v / 512 in t.low then {} else {v / 512};
    assert {v / 512 / 512} - t.mid.Keys == if v / 512 / 512 in t.mid then {} else {v / 512 / 512};
  }

  /** What the next page needs once the tables of the earlier ones are there. */
  lemma NeedMore(t: Tree, t1: Tree, a: nat, n: nat)
    requires HasTables(t, t1, a, n)
    ensures TablesNeeded(t, a, n + 1) == TablesNeeded(t, a, n) + TablesNeeded(t1, a + n, 1)
  {
    hide LowKeys, MidKeys, Lacks;
    KeysMore(a, n);
    KeysOne(a + n);
    LackOneMore(t.low.Keys, LowKeys(a, n), (a + n) / 512);
    LackOneMore(t.mid.Keys, MidKeys(a, n), (a + n) / 512 / 512);
  }

  lemma LackOneMore(have: set<nat>, want: set<nat>, k: nat)
    ensures Lacks(have, want + {k}) == Lacks(have, want) + Lacks(have + want, {k})
  {
    if k in have + want {
      assert {k} - (have + want) == {};
      assert want + {k} - have == want - have;
    } else {
      assert {k} - (have + want) == {k};
      assert want + {k} - have == (want - have) + {k};
    }
  }

  lemma HasMore(t: Tree, t1: Tree, t2: Tree, a: nat, n: nat)
    requires HasTables(t, t1, a, n) && HasTables(t1, t2, a + n, 1)
    ensures HasTables(t, t2, a, n + 1)
  {
    hide LowKeys, MidKeys;
    KeysMore(a, n);
    KeysOne(a + n);
  }

  lemma NeedMono(t: Tree, a: nat, n: nat, m: nat)
    requires n <= m
    ensures TablesNeeded(t, a, n) <= TablesNeeded(t, a, m)
    decreases m - n
  {
    hide LowKeys, MidKeys, Lacks;
    if n < m {
      KeysMore(a, n);
      NeedMono(t, a, n + 1, m);
      LackOneMore(t.low.Keys, LowKeys(a, n), (a + n) / 512);
      LackOneMore(t.mid.Keys, MidKeys(a, n), (a + n) / 512 / 512);
    }
  }

  /** How many pages it takes to add pages [a, a + n): themselves and the tables that are missing. */
  ghost function PagesNeeded(t: Tree, a: nat, n: nat): nat {
    n + TablesNeeded(t, a, n)
  }

  lemma NeededNone(t: Tree, a: nat)
    ensures PagesNeeded(t, a, 0) == 0 && HasTables(t, t, a, 0)
  {
    NeedNone(t, a);
  }

  lemma NeededMore(t: Tree, t1: Tree, a: nat, n: nat, m: nat)
    requires HasTables(t, t1, a, n) && n < m
    ensures PagesNeeded(t, a, n + 1) == PagesNeeded(t, a, n) + 1 + TablesNeeded(t1, a + n, 1)
    ensures PagesNeeded(t, a, n + 1) <= PagesNeeded(t, a, m)
  {
    hide TablesNeeded, HasTables;
    NeedMore(t, t1, a, n);
    NeedMono(t, a, n + 1, m);
  }

  /** walk for vpn has come down to level and has added used tables to t. */
  ghost predicate Descending(t: Tree, t': Tree, vpn: nat, level: nat, used: int) {
    && t'.mid.Keys == (if level < 2 then t.mid.Keys + {vpn / 512 / 512} else t.mid.Keys)
    && t'.low.Keys == (if level < 1 then t.low.Keys + {vpn / 512} else t.low.Keys)
    && used == (if level < 2 && vpn / 512 / 512 !in t.mid then 1 else 0)
               + (if level < 1 && vpn / 512 !in t.low then 1 else 0)
  }

  lemma DescendFollow(t: Tree, t': Tree, vpn: nat, level: nat, page: nat, used: int)
    requires Descending(t, t', vpn, level, used) && 0 < level <= 2 && vpn < MAXVPN && Reached(t', vpn, level - 1, page)
    ensures Descending(t, t', vpn, level - 1, used)
  {
    IndexSplit(vpn);
  }

  lemma DescendLink(t: Tree, t': Tree, vpn: nat, level: nat, child: nat, used: int)
    requires Descending(t, t', vpn, level, used) && 0 < level <= 2 && vpn < MAXVPN
    requires if level == 2 then Px2(vpn) !in t'.mid else vpn / 512 !in t'.low
    ensures Descending(t, Linked(t', vpn, level, child), vpn, level - 1, used + 1) && used < TablesNeeded(t, vpn, 1)
  {
    hide TablesNeeded;
    IndexSplit(vpn);
    NeedOne(t, vpn);
  }

  lemma DescendEnd(t: Tree, t': Tree, vpn: nat, used: int)
    requires Descending(t, t', vpn, 0, used)
    ensures HasTables(t, t', vpn, 1) && used == TablesNeeded(t, vpn, 1)
  {
    hide TablesNeeded, LowKeys, MidKeys;
    KeysOne(vpn);
    NeedOne(t, vpn);
  }

  datatype Walked = At(page: nat, index: nat) | Missing | WalkPanic

  class Memory {
    const lo: nat          // first page after the kernel
    var mem: Mem
    var freelist: nat      // kmem.freelist
    ghost var free: seq<nat>

    ghost predicate Valid()
      reads this
    {
      && 0 < lo <= |mem|
      && Chain(mem, freelist, free)
      && (forall p :: p in free ==> lo <= p)
    }

    /** kinit */
    constructor (lo: nat, mem: Mem)
      requires 0 < lo <= |mem|
      ensures Valid() && this.lo == lo && |this.mem| == |mem| && AllFrom(free, lo, |mem|)
    {
      this.lo, this.mem, freelist, free := lo, mem, 0, [];
      new;
      ChainEmpty(mem);
      Freerange();
    }

    /** freerange: every page from the end of the kernel on is freed. */
    method Freerange()
      requires Valid() && free == []
      modifies this
      ensures Valid() && |mem| == |old(mem)| && AllFrom(free, lo, |mem|)
      ensures forall p :: 0 <= p < lo ==> mem[p] == old(mem)[p]
    {
      hide Chain, AllFrom;
      AllFromNone(lo);
      for p := lo to |mem|
        invariant Valid() && |mem| == |old(mem)| && AllFrom(free, lo, p)
        invariant forall q :: 0 <= q < lo ==> mem[q] == old(mem)[q]
      {
        AllFromMore(free, lo, p);
        var r := Kfree(p);
      }
    }

    /** uvmcreate: an empty page table, or 0 if there is no page. */
    method Uvmcreate() returns (root: nat, ghost t: Tree)
      requires Valid()
      modifies this
      ensures Valid() && |mem| == |old(mem)|
      ensures root == 0 <==> old(free) == []
      ensures root == 0 ==> mem == old(mem) && free == old(free)
      ensures root != 0 ==> root == old(free)[0] && free == old(free)[1..] && mem == old(mem)[root := Page(ZeroWords())]
      ensures root != 0 ==> t == EmptyTree(root) && Space(mem, free, lo, t)
                            && forall v :: 0 <= v < MAXVPN ==> Lookup(mem, t, v) == None
    {
      hide Chain;
      root := Kalloc();
      t := EmptyTree(root);
      if root == 0 {
        return;
      }
      ghost var taken := mem;
      ChainInRange(mem, freelist, free);
      mem := mem[root := Page(ZeroWords())];
      ChainFrame(taken, mem, freelist, free);
      EmptyTreeOk(mem, root);
      assert mem == old(mem)[root := Page(ZeroWords())];
    }

    /** kalloc: the page at the head of the free list, filled with junk; 0 if there is none. */
    method Kalloc() returns (p: nat)
      requires Valid()
      modifies this
      ensures Valid() && |mem| == |old(mem)|
      ensures old(free) == [] ==> p == 0 && mem == old(mem) && free == old(free)
      ensures old(free) != [] ==> p == old(free)[0] && lo <= p < |mem| && p !in free && free == old(free)[1..]
                                  && mem == old(mem)[p := Page(FillWords(JUNK_ALLOC))]
    {
      hide Chain;
      ChainHead(mem, freelist, free);
      var r := freelist;
      p := 0;
      if r != 0 {
        ChainPop(mem, freelist, free);
        assert free[0] in free;
        p := r / PGSIZE;
        freelist := mem[p].words[0];
        ghost var before := mem;
        mem := mem[p := Page(FillWords(JUNK_ALLOC))];
        assert forall q :: q in free[1..] ==> q in free;
        free := free[1..];
        ChainFrame(before, mem, freelist, free);
      }
    }

    /** kfree: panics for a page outside the managed range; the page must not be free already. */
    method Kfree(p: nat) returns (r: Result<()>)
      requires Valid() && p !in free
      modifies this
      ensures r.Panic? <==> p < lo || p >= |old(mem)|
      ensures r.Ok? ==> Valid() && free == [p] + old(free) && |mem| == |old(mem)|
      ensures r.Ok? ==> mem == old(mem)[p := Page(FillWords(JUNK_FREE)[0 := old(freelist)])]
    {
      hide Chain;
      if p < lo || p >= |mem| {
        return Panic;
      }
      ghost var before := mem;
      ChainInRange(mem, freelist, free);
      mem := mem[p := Page(FillWords(JUNK_FREE))];
      mem := mem[p := Page(mem[p].words[0 := freelist])];
      ChainFrame(before, mem, freelist, free);
      ChainPush(mem, freelist, free, p);
      freelist := p * PGSIZE;
      free := [p] + free;
      r := Ok(());
    }

    /** walk's allocation of one table page: taken, zeroed and linked at entry i of page. Returns 0 if there is none. */
    method LinkTable(page: nat, i: nat, level: nat, vpn: nat, ghost t: Tree) returns (child: nat, ghost t': Tree)
      requires Valid() && Space(mem, free, lo, t) && vpn < MAXVPN && 0 < level <= 2 && i == Px(level, vpn)
      requires Reached(t, vpn, level, page) && page < |mem| && !IsValid(mem[page].words[i])
      modifies this
      ensures Valid() && Space(mem, free, lo, t') && Grown(old(mem), old(free), t, mem, free, t')
      ensures child == 0 <==> old(free) == []
      ensures child == 0 ==> free == [] && t' == t
      ensures child != 0 ==> Reached(t', vpn, level - 1, child) && t' == Linked(t, vpn, level, child)
                             && |free| == |old(free)| - 1
    {
      hide Chain, TreeOk, Grown, Lookup;
      t' := t;
      ghost var mem0, free0 := mem, free;
      GrownRefl(mem, free, t);
      child := Kalloc();
      if child == 0 {
        return;
      }
      ghost var taken := mem;
      ChainInRange(mem, freelist, free);
      mem := mem[child := Page(ZeroWords())];
      ghost var zeroed := mem;
      assert zeroed == mem0[child := Page(ZeroWords())];
      mem := SetEntry(mem, page, i, MakePte(child, PTE_V));
      t' := Linked(t, vpn, level, child);
      LinkKeeps(mem0, free0, lo, t, vpn, level, page, child, zeroed);
      assert forall p :: p in free ==> p in free0;
      ChainFrame(taken, mem, freelist, free);
    }

    /**
     walk: the leaf slot of a virtual page. With alloc it links zeroed table pages as it goes, exactly those that the
     page lacks, and fails exactly if there are too few free pages for them;
     whatever it allocates, even when it then runs out of memory, belongs to the tree and
     changes no translation. Without alloc it changes nothing.
     */
    method Walk(root: nat, vpn: nat, alloc: bool, ghost t: Tree) returns (r: Walked, ghost t': Tree)
      requires Valid() && Space(mem, free, lo, t) && t.root == root
      modifies this
      ensures Valid() && Space(mem, free, lo, t') && Grown(old(mem), old(free), t, mem, free, t')
      ensures r.WalkPanic? <==> vpn >= MAXVPN
      ensures r.At? ==> r.index == Px0(vpn) && Reached(t', vpn, 0, r.page)
      ensures r.Missing? ==> if alloc then free == [] else vpn / 512 !in t.low
      ensures alloc && vpn < MAXVPN ==> (r.Missing? <==> |old(free)| < TablesNeeded(t, vpn, 1))
      ensures alloc && r.At? ==> |old(free)| - |free| == TablesNeeded(t, vpn, 1) && HasTables(t, t', vpn, 1)
      ensures !alloc ==> mem == old(mem) && free == old(free) && t' == t
    {
      hide Chain, TreeOk, Grown, Reached, Descending, TablesNeeded, HasTables, Linked;
      t' := t;
      GrownRefl(mem, free, t);
      if vpn >= MAXVPN {
        return WalkPanic, t';
      }
      var page := root;
      var level := 2;
      WalkStarts(t, vpn);
      while level > 0
        invariant 0 <= level <= 2 && Reached(t', vpn, level, page)
        invariant Descending(t, t', vpn, level, |old(free)| - |free|)
        invariant Valid() && Space(mem, free, lo, t') && Grown(old(mem), old(free), t, mem, free, t')
        invariant !alloc ==> mem == old(mem) && free == old(free) && t' == t
      {
        Descend(mem, t', vpn, level, page);
        var i := Px(level, vpn);
        var pte := mem[page].words[i];
        if IsValid(pte) {
          page := PtePage(pte);
          DescendFollow(t, t', vpn, level, page, |old(free)| - |free|);
        } else {
          if !alloc {
            NoLow(mem, t', vpn, level);
            return Missing, t';
          }
          ghost var m1, f1, t1 := mem, free, t';
          page, t' := LinkTable(page, i, level, vpn, t');
          DescendLink(t, t1, vpn, level, page, |old(free)| - |f1|);
          GrownTrans(old(mem), old(free), t, m1, f1, t1, mem, free, t');
          if page == 0 {
            return Missing, t';
          }
        }
        level := level - 1;
      }
      DescendEnd(t, t', vpn, |old(free)| - |free|);
      r := At(page, Px0(vpn));
    }

    /**
     mappages: on success exactly the pages that [va, va+size) touches are added, mapped to
     consecutive physical pages with the permissions given; if a table cannot be allocated
     (-1), only the first done of them. All other translations are unchanged. It succeeds exactly if the pages are
     unmapped and there are free pages for the tables they lack. It panics
     exactly if size is 0, or it meets a page that is already mapped or is past MAXVA.
     */
    method MapPages(root: nat, va: nat, size: nat, pa: nat, perm: nat, ghost t: Tree)
      returns (r: Result<int>, ghost t': Tree, ghost done: nat)
      requires Valid() && Space(mem, free, lo, t) && t.root == root && perm < 1024
      modifies this
      ensures r.Ok? ==> size > 0 && (r.value == 0 || r.value == -1)
      ensures r.Ok? ==> Valid() && Space(mem, free, lo, t') && Within(old(mem), old(free), t, mem, free, t')
      ensures r.Ok? ==> Mapped(old(mem), t, mem, t', va / PGSIZE, done, pa / PGSIZE, WithV(perm))
      ensures r.Ok? ==> FreshRange(old(mem), t, va / PGSIZE, done) && done <= Pages(va, size)
      ensures r.Ok? ==> if r.value == 0 then done == Pages(va, size) else done < Pages(va, size) && free == []
      ensures r.Panic? ==> size == 0 || (done < Pages(va, size) && FreshRange(old(mem), t, va / PGSIZE, done)
                                         && !FreshRange(old(mem), t, va / PGSIZE, done + 1)
                                         && !FreshRange(old(mem), t, va / PGSIZE, Pages(va, size)))
      ensures r.Ok? ==> (r.value == 0 <==> TablesNeeded(t, va / PGSIZE, Pages(va, size)) <= |old(free)|)
      ensures r == Ok(0) ==> |old(free)| - |free| == TablesNeeded(t, va / PGSIZE, Pages(va, size))
                             && HasTables(t, t', va / PGSIZE, Pages(va, size))
    {
      hide Chain, TreeOk, Grown, Within, Mapped, Lookup, FreshRange, TablesNeeded, HasTables;
      t', done := t, 0;
      if size == 0 {
        return Panic, t', done;
      }
      var first := va / PGSIZE;
      var a := first;
      var last := (va + size - 1) / PGSIZE;
      var ppn := pa / PGSIZE;
      PagesAre(va, size);
      MappedNone(mem, free, t, a, ppn, WithV(perm));
      FreshNone(mem, t, a);
      NeedNone(t, a);
      ghost var all := Pages(va, size);
      while true
        invariant first <= a <= last && done == a - first && ppn == pa / PGSIZE + done
        invariant Valid() && Space(mem, free, lo, t') && Within(old(mem), old(free), t, mem, free, t')
        invariant Mapped(old(mem), t, mem, t', first, done, pa / PGSIZE, WithV(perm))
        invariant FreshRange(old(mem), t, first, done)
        invariant HasTables(t, t', first, done) && |old(free)| - |free| == TablesNeeded(t, first, done)
        decreases last - a
      {
        ghost var m1, f1, t1 := mem, free, t';
        var w;
        WithinRoot(old(mem), old(free), t, mem, free, t');
        w, t' := Walk(root, a, true, t');
        NeedMore(t, t1, first, done);
        NeedMono(t, first, done + 1, all);
        NotFresh(old(mem), t, first, done + 1, all);
        FreshOneMore(old(mem), t, m1, t1, mem, t', first, done, pa / PGSIZE, WithV(perm), f1, free);
        if w.Missing? {
          GrownMapped(old(mem), old(free), t, m1, f1, t1, mem, free, t', first, done, pa / PGSIZE, WithV(perm));
          return Ok(-1), t', done;
        }
        if w.WalkPanic? {
          return Panic, t', done;
        }
        SlotIsLookup(mem, t', a, w.page);
        if IsValid(mem[w.page].words[w.index]) {
          return Panic, t', done;
        }
        HasMore(t, t1, t', first, done);
        MappedOneMore(old(mem), old(free), t, m1, f1, t1, mem, free, t', lo, first, done, pa / PGSIZE, WithV(perm),
                      w.page);
        ghost var m2 := mem;
        mem := SetEntry(mem, w.page, w.index, MakePte(ppn, WithV(perm)));
        ChainInRange(m2, freelist, free);
        ChainFrame(m2, mem, freelist, free);
        done := done + 1;
        if a == last {
          return Ok(0), t', done;
        }
        a := a + 1;
        ppn := ppn + 1;
      }
    }

    /**
     uvmunmap: exactly the pages [va, va + npages * PGSIZE) lose their mapping, and with
     doFree their physical pages go back to the free list, once each. It panics exactly if va
     is not aligned or some page of the range is missing or not a leaf.
     */
    method Uvmunmap(root: nat, va: nat, npages: nat, doFree: bool, ghost t: Tree) returns (r: Result<()>)
      requires Valid() && Space(mem, free, lo, t) && t.root == root
      requires doFree ==> Freeable(mem, free, lo, t, va / PGSIZE, npages)
      modifies this
      ensures r.Ok? <==> va % PGSIZE == 0 && LeafRange(old(mem), t, va / PGSIZE, npages)
      ensures r.Ok? ==> Valid() && Unmapped(old(mem), old(free), t, mem, free, lo, va / PGSIZE, npages, doFree)
    {
      hide Chain, TreeOk, Lookup, Unmapped, Freeable, LeafRange;
      if va % PGSIZE != 0 {
        return Panic;
      }
      ghost var first := va / PGSIZE;
      UnmappedNone(mem, free, t, lo, first, doFree);
      var a := va / PGSIZE;
      while a < va / PGSIZE + npages
        invariant first <= a <= first + npages
        invariant Valid() && Unmapped(old(mem), old(free), t, mem, free, lo, first, a - first, doFree)
        invariant LeafRange(old(mem), t, first, a - first)
      {
        ghost var k := a - first;
        UnmappedSpace(old(mem), old(free), t, mem, free, lo, first, k, doFree);
        ghost var m1, f1 := mem, free;
        var w, t1 := Walk(root, a, false, t);
        LeafOneMore(old(mem), old(free), t, mem, free, lo, first, k, npages, doFree);
        if w.WalkPanic? {
          return Panic;
        }
        if w.Missing? {
          MissingIsNone(mem, t, a);
          return Panic;
        }
        SlotIsLookup(mem, t, a, w.page);
        var pte := mem[w.page].words[w.index];
        if !IsValid(pte) {
          return Panic;
        }
        if PteFlags(pte) == PTE_V {
          return Panic;
        }
        if doFree {
          NextIsFreeable(old(mem), old(free), t, mem, free, lo, first, k, npages);
          var f := Kfree(PtePage(pte));
        }
        UnmappedOneMore(old(mem), old(free), t, m1, f1, mem, free, lo, first, k, doFree, w.page);
        ghost var m2 := mem;
        mem := SetEntry(mem, w.page, w.index, 0);
        ChainInRange(m2, freelist, free);
        ChainFrame(m2, mem, freelist, free);
        a := a + 1;
      }
      r := Ok(());
    }

    /** uvmdealloc: unmap and free the pages above newsz, if it is smaller. */
    method Uvmdealloc(root: nat, oldsz: nat, newsz: nat, ghost t: Tree) returns (r: Result<nat>)
      requires Valid() && Space(mem, free, lo, t) && t.root == root
      requires newsz < oldsz ==> Freeable(mem, free, lo, t, RoundUp(newsz), RoundUp(oldsz) - RoundUp(newsz))
      modifies this
      ensures newsz >= oldsz ==> r == Ok(oldsz) && mem == old(mem) && free == old(free) && Valid()
      ensures newsz < oldsz ==>
                (r.Ok? <==> LeafRange(old(mem), t, RoundUp(newsz), RoundUp(oldsz) - RoundUp(newsz)))
      ensures newsz < oldsz && r.Ok? ==>
                r.value == newsz && Valid()
                && Unmapped(old(mem), old(free), t, mem, free, lo, RoundUp(newsz), RoundUp(oldsz) - RoundUp(newsz),
                            true)
    {
      hide Chain, TreeOk, Lookup, Unmapped, Freeable, LeafRange;
      if newsz >= oldsz {
        return Ok(oldsz);
      }
      RoundUpMono(newsz, oldsz);
      UnmappedNone(mem, free, t, lo, RoundUp(newsz), true);
      if RoundUp(newsz) < RoundUp(oldsz) {
        var npages := RoundUp(oldsz) - RoundUp(newsz);
        RoundUpAligned(newsz);
        var u := Uvmunmap(root, RoundUp(newsz) * PGSIZE, npages, true, t);
        if u.Panic? {
          return Panic;
        }
      }
      r := Ok(newsz);
    }

    /** One iteration of uvmalloc's or uvmcopy's loop: a page with the given contents, mapped at vpn. */
    method AddPage(root: nat, vpn: nat, contents: Page, perm: nat, ghost m0: Mem, ghost f0: seq<nat>, ghost t0: Tree,
                   ghost start: nat, ghost want: seq<Leaf>, ghost t: Tree)
      returns (ok: bool, ghost t': Tree, ghost page: nat)
      requires Valid() && Extended(m0, f0, t0, mem, free, t, lo, start, want) && t.root == root
      requires perm < 1024 && vpn == start + |want| && vpn < MAXVPN && Lookup(m0, t0, vpn) == None
      modifies this
      ensures Valid() && t'.root == root
      ensures ok ==> Extended(m0, f0, t0, mem, free, t', lo, start, want + [Leaf(page, WithV(perm))])
                     && page < |mem| && mem[page] == contents
      ensures !ok ==> Extended(m0, f0, t0, mem, free, t', lo, start, want)
      ensures ok <==> 1 + TablesNeeded(t, vpn, 1) <= |old(free)|
      ensures ok ==> |old(free)| - |free| == 1 + TablesNeeded(t, vpn, 1) && HasTables(t, t', vpn, 1)
      ensures forall p :: 0 <= p < |old(mem)| && p !in t'.role && p !in old(free) ==> p < |mem| && mem[p] == old(mem)[p]
    {
      hide Chain, TreeOk, Lookup, Extended, Within, Mapped, FreshRange, TablesNeeded, HasTables;
      t', page := t, 0;
      ExtendedFacts(m0, f0, t0, mem, free, t, lo, start, want);
      var p := Kalloc();
      if p == 0 {
        return false, t', 0;
      }
      ghost var m1 := mem;
      ChainInRange(mem, freelist, free);
      mem := mem[p := contents];
      ChainFrame(m1, mem, freelist, free);
      ghost var m2, f2 := mem, free;
      assert m2 == old(mem)[p := contents];
      TakePage(m0, f0, t0, old(mem), old(free), t, lo, start, want, p, contents);
      var r;
      ghost var done;
      OnePage(vpn, p);
      MapsOne(m0, f0, t0, old(mem), old(free), t, m2, lo, start, want);
      r, t', done := MapPages(root, vpn * PGSIZE, PGSIZE, p * PGSIZE, perm, t);
      WithinRoot(m2, f2, t, mem, free, t');
      WithinFrame(m2, f2, t, mem, free, t');
      if r == Ok(0) {
        ExtendOne(m0, f0, t0, old(mem), old(free), t, m2, mem, free, t', lo, start, want, Leaf(p, WithV(perm)));
        return true, t', p;
      }
      NothingMapped(m2, f2, t, mem, free, t', vpn, p, WithV(perm));
      ghost var m3, f3 := mem, free;
      var k := Kfree(p);
      ExtendFail(m0, f0, t0, old(mem), old(free), t, m2, m3, f3, t', mem, lo, start, want, p);
      ok := false;
    }

    /**
     uvmalloc: grow from oldsz to newsz. On success exactly the new pages are mapped, each to
     a zeroed page of its own with all permissions; on failure every page it took for user
     memory is free again and no translation has changed (new table pages stay in the tree).
     It succeeds exactly if the free pages are enough for the new pages and the tables they lack.
     */
    method Uvmalloc(root: nat, oldsz: nat, newsz: nat, ghost t: Tree)
      returns (r: nat, ghost t': Tree, ghost want: seq<Leaf>, ghost ok: bool)
      requires Valid() && Space(mem, free, lo, t) && t.root == root
      requires newsz >= oldsz ==> FreshRange(mem, t, RoundUp(oldsz), RoundUp(newsz) - RoundUp(oldsz))
      modifies this
      ensures Valid() && Extended(old(mem), old(free), t, mem, free, t', lo, RoundUp(oldsz), want)
      ensures newsz < oldsz ==> ok && r == oldsz && want == []
      ensures newsz >= oldsz ==> r == if ok then newsz else 0
      ensures newsz >= oldsz && ok ==> |want| == RoundUp(newsz) - RoundUp(oldsz)
      ensures Zeroed(mem, want) && (!ok ==> want == [])
      ensures newsz >= oldsz ==>
                (ok <==> PagesNeeded(t, RoundUp(oldsz), RoundUp(newsz) - RoundUp(oldsz)) <= |old(free)|)
      ensures ok ==> |old(free)| - |free| == PagesNeeded(t, RoundUp(oldsz), |want|)
    {
      hide Chain, TreeOk, Lookup, Extended, FreshRange, PagesNeeded, HasTables, TablesNeeded, Zeroed;
      t', want := t, [];
      var start := RoundUp(oldsz);
      NoneZeroed(mem);
      ExtendedNone(mem, free, t, lo, start);
      NeededNone(t, start);
      if newsz < oldsz {
        return oldsz, t', [], true;
      }
      RoundUpMono(oldsz, newsz);
      var a := start * PGSIZE;
      while a < newsz
        invariant a == (start + |want|) * PGSIZE && start + |want| <= RoundUp(newsz)
        invariant Valid() && t'.root == root && Extended(old(mem), old(free), t, mem, free, t', lo, start, want)
        invariant Zeroed(mem, want)
        invariant HasTables(t, t', start, |want|) && |old(free)| - |free| == PagesNeeded(t, start, |want|)
        decreases RoundUp(newsz) - start - |want|
      {
        BelowSize(start + |want|, newsz);
        NextIsFresh(old(mem), t, start, RoundUp(newsz) - start, |want|);
        ghost var m1, f1, t1 := mem, free, t';
        var added;
        ghost var page;
        added, t', page := AddPage(root, a / PGSIZE, Page(ZeroWords()), USER_RWX - 1, old(mem), old(free), t, start,
                                   want, t');
        NeededMore(t, t1, start, |want|, RoundUp(newsz) - start);
        if !added {
          ZeroedFlags(mem, m1, want);
          UndoReady(old(mem), old(free), t, mem, free, t', lo, start, want);
          ghost var m2, f2 := mem, free;
          RoundUpPages(start, |want|);
          var u := Uvmdealloc(root, a, start * PGSIZE, t');
          FreshPrefix(old(mem), t, start, RoundUp(newsz) - start, |want|);
          UnmappedNone(m2, f2, t', lo, start, true);
          UndoExtended(old(mem), old(free), t, m2, f2, mem, free, t', lo, start, want);
          NoneZeroed(mem);
          return 0, t', [], false;
        }
        HasMore(t, t1, t', start, |want|);
        ZeroedMore(old(mem), old(free), t, m1, f1, t1, mem, free, t', lo, start, want, page);
        want := want + [Leaf(page, USER_RWX)];
        a := a + PGSIZE;
      }
      BelowSize(start + |want|, newsz);
      r, ok := newsz, true;
    }

    /**
     uvmcopy: give the child of a fork a copy of the first sz bytes of its parent. On success
     every page has the parent's flags and bytes, on a page of its own; on failure the child
     maps nothing new and every page taken for it is free again. The parent is untouched.
     It succeeds exactly if every page of the parent is mapped and the free pages are enough for the
     copies and the tables they lack.
     */
    method Uvmcopy(parent: nat, child: nat, sz: nat, ghost tp: Tree, ghost tc: Tree)
      returns (r: Result<int>, ghost t': Tree, ghost want: seq<Leaf>)
      requires Valid() && Space(mem, free, lo, tp) && Space(mem, free, lo, tc) && tp.root == parent && tc.root == child
      requires Apart(mem, free, tp, tc, RoundUp(sz)) && FreshRange(mem, tc, 0, RoundUp(sz))
      modifies this
      ensures LeafRange(old(mem), tp, 0, RoundUp(sz)) ==> r.Ok?
      ensures r.Ok? ==> Valid() && Extended(old(mem), old(free), tc, mem, free, t', lo, 0, want)
      ensures r == Ok(0) ==> |want| == RoundUp(sz) && CopyOf(old(mem), tp, mem, want)
      ensures r.Ok? && r.value != 0 ==> r.value == -1 && want == []
      ensures r.Ok? ==> SameTranslations(old(mem), tp, mem, tp)
      ensures r == Ok(0) <==> AllMapped(old(mem), tp, RoundUp(sz)) && PagesNeeded(tc, 0, RoundUp(sz)) <= |old(free)|
      ensures r == Ok(-1) ==> PagesNeeded(tc, 0, RoundUp(sz)) > |old(free)|
      ensures r == Ok(0) ==> |old(free)| - |free| == PagesNeeded(tc, 0, RoundUp(sz))
    {
      hide Chain, TreeOk, Lookup, Extended, FreshRange, Apart, LeafRange, CopyOf, PagesNeeded, HasTables,
           TablesNeeded, AllMapped;
      t', want := tc, [];
      ExtendedNone(mem, free, tc, lo, 0);
      NeededNone(tc, 0);
      CopyStarts(mem, tp);
      var i := 0;
      while i < sz
        invariant i == |want| * PGSIZE && |want| <= RoundUp(sz)
        invariant Valid() && t'.root == child && Extended(old(mem), old(free), tc, mem, free, t', lo, 0, want)
        invariant CopyOf(old(mem), tp, mem, want)
        invariant HasTables(tc, t', 0, |want|) && |old(free)| - |free| == PagesNeeded(tc, 0, |want|)
        decreases RoundUp(sz) - |want|
      {
        BelowSize(|want|, sz);
        NextIsFresh(old(mem), tc, 0, RoundUp(sz), |want|);
        ParentSame(old(mem), old(free), lo, tp, tc, mem, free, t', RoundUp(sz), want);
        ghost var m1, f1, t1 := mem, free, t';
        ghost var tw;
        var w;
        w, tw := Walk(parent, i / PGSIZE, false, tp);
        NeedsLeaf(old(mem), tp, RoundUp(sz), |want|);
        NeedsPage(old(mem), tp, RoundUp(sz), |want|);
        if !w.At? {
          if w.Missing? {
            MissingIsNone(mem, tp, |want|);
          }
          return Panic, t', want;
        }
        SlotIsLookup(mem, tp, |want|, w.page);
        var pte := mem[w.page].words[w.index];
        if !IsValid(pte) {
          return Panic, t', want;
        }
        var pa := PtePage(pte);
        var flags := PteFlags(pte);
        SourcePage(old(mem), old(free), tp, tc, mem, free, t', lo, RoundUp(sz), want);
        var added;
        ghost var page;
        added, t', page := AddPage(child, i / PGSIZE, mem[pa], flags, old(mem), old(free), tc, 0, want, t');
        NeededMore(tc, t1, 0, |want|, RoundUp(sz));
        if !added {
          if !CopyFlagsOk(want) {
            NotLeafRange(old(mem), tp, m1, want, RoundUp(sz));
          }
          ghost var m2, f2 := mem, free;
          ExtendedFacts(old(mem), old(free), tc, mem, free, t', lo, 0, want);
          if CopyFlagsOk(want) {
            UndoReady(old(mem), old(free), tc, mem, free, t', lo, 0, want);
          } else {
            AddedFreeable(old(mem), old(free), tc, mem, free, t', lo, want);
          }
          var u := Uvmunmap(child, 0, i / PGSIZE, true, t');
          if u.Panic? {
            return Panic, t', want;
          }
          FreshPrefix(old(mem), tc, 0, RoundUp(sz), |want|);
          UndoExtended(old(mem), old(free), tc, m2, f2, mem, free, t', lo, 0, want);
          want := [];
          ParentSame(old(mem), old(free), lo, tp, tc, mem, free, t', RoundUp(sz), want);
          return Ok(-1), t', want;
        }
        HasMore(tc, t1, t', 0, |want|);
        CopyMore(old(mem), old(free), tp, tc, m1, f1, t1, mem, free, t', lo, want, page, flags);
        want := want + [Leaf(page, WithV(flags))];
        i := i + PGSIZE;
      }
      BelowSize(|want|, sz);
      ParentSame(old(mem), old(free), lo, tp, tc, mem, free, t', RoundUp(sz), want);
      CopiedWereMapped(old(mem), tp, mem, want);
      r := Ok(0);
    }

    /**
     freewalk: free every table page at and below page, each once. It panics exactly if a mapping is left below.
     level and key say which table of the tree the page is.
     */
    method Freewalk(page: nat, ghost t: Tree, ghost level: nat, ghost key: nat, ghost m0: Mem) returns (r: Result<()>)
      requires Valid() && Doomed(m0, lo, t) && IsTable(t, level, key, page)
      requires Intact(m0, mem, free, t, level, key)
      modifies this
      ensures r.Ok? <==> BareFirst(m0, t, level, key, ENTRIES)
      ensures r.Ok? ==> Valid() && Reclaimed(old(mem), old(free), mem, free, t, level, key)
      decreases level
    {
      hide Chain, Doomed, IsTable, Intact, Reclaimed, Freeing, BareFirst;
      FreeingStarts(m0, lo, mem, free, t, level, key, page);
      NothingFirst(m0, t, level, key);
      var i := 0;
      while i < ENTRIES
        invariant 0 <= i <= ENTRIES
        invariant Valid() && Freeing(m0, old(mem), old(free), mem, free, t, level, key, page, i)
        invariant BareFirst(m0, t, level, key, i)
      {
        TableEntry(m0, lo, old(mem), old(free), mem, free, t, level, key, page, i);
        BareNext(m0, lo, t, level, key, page, i);
        BareAll(m0, t, level, key, i + 1);
        var pte := mem[page].words[i];
        if IsValid(pte) && !IsLeaf(PteFlags(pte)) {
          var child := PtePage(pte);
          ghost var m1, f1 := mem, free;
          var u := Freewalk(child, t, level - 1, ChildKey(level, key, i), m0);
          if u.Panic? {
            return Panic;
          }
          ChildFreed(m0, lo, old(mem), old(free), m1, f1, mem, free, t, level, key, page, i);
          ghost var m2 := mem;
          mem := SetEntry(mem, page, i, 0);
          ChainInRange(m2, freelist, free);
          ChainFrame(m2, mem, freelist, free);
        } else if IsValid(pte) {
          return Panic;
        } else {
          NothingThere(m0, lo, old(mem), old(free), mem, free, t, level, key, page, i);
        }
        i := i + 1;
      }
      FreeingEnds(m0, lo, old(mem), old(free), mem, free, t, level, key, page);
      ghost var m3, f3 := mem, free;
      r := Kfree(page);
      LastFreed(m0, lo, old(mem), old(free), m3, f3, mem, free, t, level, key, page);
    }

    /**
     uvmfree: the user pages below sz and every table page go back to the free list, each
     once, and nothing else is touched. It panics exactly if a page below sz is not mapped or one above it is.
     */
    method Uvmfree(root: nat, sz: nat, ghost t: Tree) returns (r: Result<()>)
      requires Valid() && Space(mem, free, lo, t) && t.root == root
      requires Freeable(mem, free, lo, t, 0, RoundUp(sz)) && LeavesAbove(mem, t, RoundUp(sz))
      modifies this
      ensures r.Ok? <==> LeafRange(old(mem), t, 0, RoundUp(sz)) && NoneAbove(old(mem), t, RoundUp(sz))
      ensures r.Ok? ==> Valid() && Destroyed(old(mem), old(free), t, mem, free, RoundUp(sz))
    {
      hide Chain, TreeOk, Lookup, Unmapped, Freeable, LeafRange, Destroyed, NoneAbove, Doomed, IsTable, Intact,
          Reclaimed,
           LeavesAbove, BareFirst;
      UnmappedNone(mem, free, t, lo, 0, true);
      if sz > 0 {
        var u := Uvmunmap(root, 0, RoundUp(sz), true, t);
        if u.Panic? {
          return Panic;
        }
      }
      ghost var m1, f1 := mem, free;
      NowDoomed(old(mem), old(free), m1, f1, t, lo, RoundUp(sz));
      r := Freewalk(root, t, 2, 0, mem);
      NoneLeft(old(mem), old(free), m1, f1, t, lo, RoundUp(sz));
      if r.Ok? {
        AllReclaimed(old(mem), old(free), m1, f1, mem, free, t, lo, RoundUp(sz));
      }
    }
  }

  // ----- uvmfree

  ghost predicate NoneAbove(mem: Mem, t: Tree, n: nat) {
    forall v :: n <= v < MAXVPN ==> Lookup(mem, t, v) == None
  }

  /** What is mapped from page n on is mapped with some permission, as all callers of mappages do. */
  ghost predicate LeavesAbove(mem: Mem, t: Tree, n: nat) {
    forall v :: n <= v < MAXVPN && Lookup(mem, t, v).Some? ==> IsLeaf(Lookup(mem, t, v).value.flags)
  }

  /** The table pages and the pages behind [0, n) are free, and no other page was written or freed. */
  ghost predicate Destroyed(m0: Mem, f0: seq<nat>, t: Tree, m: Mem, f: seq<nat>, n: nat) {
    && |m| == |m0|
    && (forall p :: p in f <==> p in f0 || p in t.role || p in Backing(m0, t, 0, n))
    && (forall p :: 0 <= p < |m| && p !in t.role && p !in Backing(m0, t, 0, n) ==> m[p] == m0[p])
  }

  lemma NowDoomed(m0: Mem, f0: seq<nat>, m: Mem, f: seq<nat>, t: Tree, lo: nat, n: nat)
    requires Unmapped(m0, f0, t, m, f, lo, 0, n, true) && LeavesAbove(m0, t, n)
    ensures Doomed(m, lo, t) && IsTable(t, 2, 0, t.root) && Intact(m, m, f, t, 2, 0)
  {
    hide Lookup, Backing, InMemory;
    assert Roles(t);
    forall v | 0 <= v < MAXVPN && Lookup(m, t, v).Some?
      ensures IsLeaf(Lookup(m, t, v).value.flags)
    {
      assert v >= n && Lookup(m, t, v) == Lookup(m0, t, v);
    }
    forall p | InSubtree(t, 2, 0, p)
      ensures 0 <= p < |m| && p !in f
    {
    }
  }

  lemma NoneLeft(m0: Mem, f0: seq<nat>, m: Mem, f: seq<nat>, t: Tree, lo: nat, n: nat)
    requires Unmapped(m0, f0, t, m, f, lo, 0, n, true)
    ensures BareFirst(m, t, 2, 0, ENTRIES) <==> NoneAbove(m0, t, n)
  {
    hide Lookup, Backing, TreeOk;
    if BareFirst(m, t, 2, 0, ENTRIES) {
      forall v | n <= v < MAXVPN
        ensures Lookup(m0, t, v) == None
      {
        assert Lookup(m, t, v) == Lookup(m0, t, v) && EntryOf(2, v) < ENTRIES;
      }
    } else {
      var v :| 0 <= v < MAXVPN && Under(2, 0, v) && EntryOf(2, v) < ENTRIES && Lookup(m, t, v) != None;
      assert v >= n && Lookup(m0, t, v) == Lookup(m, t, v);
    }
  }

  lemma AllReclaimed(m0: Mem, f0: seq<nat>, m1: Mem, f1: seq<nat>, m: Mem, f: seq<nat>, t: Tree, lo: nat, n: nat)
    requires Unmapped(m0, f0, t, m1, f1, lo, 0, n, true) && Reclaimed(m1, f1, m, f, t, 2, 0)
    ensures Destroyed(m0, f0, t, m, f, n)
  {
    hide Lookup, Backing, TreeOk;
    assert forall p :: InSubtree(t, 2, 0, p) <==> p in t.role;
  }

  /** Whatever was built on a new root table and then destroyed, every page is free again. */
  lemma NothingLeaks(m0: Mem, f0: seq<nat>, t0: Tree, m: Mem, f: seq<nat>, t: Tree, lo: nat, want: seq<Leaf>, m': Mem,
                     f': seq<nat>)
    requires Extended(m0, f0, t0, m, f, t, lo, 0, want) && Destroyed(m, f, t, m', f', |want|) && |want| <= MAXVPN
    requires forall p :: p in t0.role <==> p == t0.root
    ensures forall p :: p in f' <==> p in f0 || p == t0.root
    ensures forall p :: 0 <= p < |m'| && p != t0.root && p !in f0 ==> m'[p] == m0[p]
  {
    hide Lookup, TreeOk, Backing, Uses;
    forall v | 0 <= v < |want|
      ensures Lookup(m, t, v) == Some(want[v])
    {
    }
    assert want[..|want|] == want;
    forall p: nat
      ensures p in Backing(m, t, 0, |want|) <==> Uses(want, p)
    {
      BackingIsWant(m, t, 0, want, |want|, p);
    }
  }

  // ----- freewalk

  /** A tree about to be freed; what it still maps, it maps with some permission. */
  ghost predicate Doomed(m0: Mem, lo: nat, t: Tree) {
    && TreeOk(m0, t)
    && (forall p :: p in t.role ==> lo <= p)
    && LeavesAbove(m0, t, 0)
  }

  /** Virtual page v is translated by way of the table. */
  predicate Under(level: nat, key: nat, v: nat) {
    level == 2 || (level == 1 && v / 512 / 512 == key) || (level == 0 && v / 512 == key)
  }

  /** The table's entry on that way. */
  function EntryOf(level: nat, v: nat): nat {
    if level == 2 then v / 512 / 512 else if level == 1 then v / 512 % 512 else v % 512
  }

  /** The first n entries of the table lead to no mapping. */
  ghost predicate BareFirst(m0: Mem, t: Tree, level: nat, key: nat, n: nat) {
    forall v :: 0 <= v < MAXVPN && Under(level, key, v) && EntryOf(level, v) < n ==> Lookup(m0, t, v) == None
  }

  lemma NothingFirst(m0: Mem, t: Tree, level: nat, key: nat)
    ensures BareFirst(m0, t, level, key, 0)
  {
  }

  lemma BareAll(m0: Mem, t: Tree, level: nat, key: nat, n: nat)
    requires n <= ENTRIES
    ensures BareFirst(m0, t, level, key, ENTRIES) ==> BareFirst(m0, t, level, key, n)
  {
    hide Lookup, Under, EntryOf;
  }

  /** What lies below one entry. */
  lemma ChildUnder(level: nat, key: nat, i: nat, v: nat)
    requires 0 < level <= 2 && i < ENTRIES
    ensures Under(level - 1, ChildKey(level, key, i), v) <==> Under(level, key, v) && EntryOf(level, v) == i
    ensures v < MAXVPN ==> EntryOf(level - 1, v) < ENTRIES
  {
  }

  /** One entry more leads to no mapping exactly if it is invalid, or the table it leads to has none. */
  lemma BareNext(m0: Mem, lo: nat, t: Tree, level: nat, key: nat, page: nat, i: nat)
    requires Doomed(m0, lo, t) && IsTable(t, level, key, page) && page < |m0| && i < ENTRIES
    requires BareFirst(m0, t, level, key, i)
    ensures BareFirst(m0, t, level, key, i + 1) <==>
            var e := m0[page].words[i];
            !IsValid(e) || (level > 0 && BareFirst(m0, t, level - 1, ChildKey(level, key, i), ENTRIES))
  {
    if level > 0 {
      InnerNext(m0, lo, t, level, key, page, i);
    } else {
      LeafNext(m0, lo, t, key, page, i);
    }
  }

  /** page is the root table (level 2), the middle table key (level 1) or the last-level table key (level 0). */
  ghost predicate IsTable(t: Tree, level: nat, key: nat, page: nat) {
    && level <= 2 && page in t.role
    && t.role[page] == (if level == 2 then RootTable else if level == 1 then MidTable(key) else LowTable(key))
  }

  /** Key of the table that entry i of a table leads to. */
  ghost function ChildKey(level: nat, key: nat, i: nat): nat {
    if level == 2 then i else key * 512 + i
  }

  /** p is a table of the subtree. */
  ghost predicate InSubtree(t: Tree, level: nat, key: nat, p: int) {
    && p in t.role
    && match t.role[p]
       case RootTable => level == 2
       case MidTable(i) => level == 2 || (level == 1 && i == key)
       case LowTable(k) => level == 2 || (level == 1 && k / 512 == key) || (level == 0 && k == key)
  }

  /** p lies below entry i of the subtree's top table. */
  ghost predicate Below(t: Tree, level: nat, key: nat, i: nat, p: int) {
    level > 0 && InSubtree(t, level - 1, ChildKey(level, key, i), p)
  }

  /** p lies below one of the first n entries. */
  ghost predicate BelowFirst(t: Tree, level: nat, key: nat, n: nat, p: int) {
    && level > 0 && InSubtree(t, level, key, p)
    && match t.role[p]
       case RootTable => false
       case MidTable(i) => level == 2 && i < n
       case LowTable(k) => if level == 2 then k / 512 < n else k % 512 < n
  }

  lemma BelowOneMore(t: Tree, level: nat, key: nat, n: nat, p: int)
    requires level <= 2 && n < 512
    ensures BelowFirst(t, level, key, n + 1, p) <==> BelowFirst(t, level, key, n, p) || Below(t, level, key, n, p)
    ensures Below(t, level, key, n, p) ==> InSubtree(t, level, key, p) && !BelowFirst(t, level, key, n, p)
    ensures InSubtree(t, level, key, p) ==> 0 <= p
  {
    if p in t.role && t.role[p].LowTable? {
      var k := t.role[p].k;
      assert k == key * 512 + n <==> k / 512 == key && k % 512 == n;
    }
  }

  lemma BelowAll(m0: Mem, lo: nat, t: Tree, level: nat, key: nat, page: nat, p: int)
    requires Doomed(m0, lo, t) && IsTable(t, level, key, page)
    ensures InSubtree(t, level, key, p) <==> p == page || BelowFirst(t, level, key, 512, p)
    ensures !BelowFirst(t, level, key, 512, page) && !BelowFirst(t, level, key, 0, p)
  {
    hide InMemory, Lookup;
    assert Roles(t);
  }

  /** The subtree's pages are as they were in m0, and none is free. */
  ghost predicate Intact(m0: Mem, m: Mem, f: seq<nat>, t: Tree, level: nat, key: nat) {
    && |m| == |m0|
    && forall p :: InSubtree(t, level, key, p) ==> p < |m0| && m[p] == m0[p] && p !in f
  }

  /** From m0 and f0, exactly the pages of the subtree were freed; no other page was written. */
  ghost predicate Reclaimed(m0: Mem, f0: seq<nat>, m: Mem, f: seq<nat>, t: Tree, level: nat, key: nat) {
    && |m| == |m0|
    && (forall p :: p in f <==> p in f0 || InSubtree(t, level, key, p))
    && (forall p :: 0 <= p < |m| && !InSubtree(t, level, key, p) ==> m[p] == m0[p])
  }

  /** After the first n entries: what lies below them is free, the rest of the subtree is intact. */
  ghost predicate Freeing(m0: Mem, mb: Mem, fb: seq<nat>, m: Mem, f: seq<nat>, t: Tree, level: nat, key: nat,
                          page: nat, n: nat) {
    && |mb| == |m| == |m0| && page < |m|
    && (forall p :: InSubtree(t, level, key, p) ==> p !in fb)
    && (forall p :: p in f <==> p in fb || BelowFirst(t, level, key, n, p))
    && (forall p :: InSubtree(t, level, key, p) && p != page && !BelowFirst(t, level, key, n, p) ==>
          p < |m| && m[p] == m0[p])
    && (forall i :: n <= i < ENTRIES ==> m[page].words[i] == m0[page].words[i])
    && (forall p :: 0 <= p < |m| && !InSubtree(t, level, key, p) ==> m[p] == mb[p])
  }

  lemma FreeingStarts(m0: Mem, lo: nat, m: Mem, f: seq<nat>, t: Tree, level: nat, key: nat, page: nat)
    requires Doomed(m0, lo, t) && IsTable(t, level, key, page) && Intact(m0, m, f, t, level, key)
    ensures Freeing(m0, m, f, m, f, t, level, key, page, 0)
  {
    hide Doomed, BelowFirst;
    assert InSubtree(t, level, key, page);
    forall p
      ensures !BelowFirst(t, level, key, 0, p)
    {
      BelowAll(m0, lo, t, level, key, page, p);
    }
  }

  /** A valid entry without a permission bit leads to a table of the level below, which is still intact. */
  lemma TableEntry(m0: Mem, lo: nat, mb: Mem, fb: seq<nat>, m: Mem, f: seq<nat>, t: Tree, level: nat, key: nat,
                   page: nat, i: nat)
    requires Doomed(m0, lo, t) && IsTable(t, level, key, page) && Freeing(m0, mb, fb, m, f, t, level, key, page, i)
             && i < ENTRIES
    ensures page < |m| == |m0| && m[page].words[i] == m0[page].words[i]
    ensures var e := m[page].words[i];
            && (IsValid(e) ==> (IsLeaf(PteFlags(e)) <==> level == 0))
            && (IsValid(e) && level > 0 ==>
                  IsTable(t, level - 1, ChildKey(level, key, i), PtePage(e))
                  && Intact(m0, m, f, t, level - 1, ChildKey(level, key, i)))
            && (!IsValid(e) && level > 0 ==> forall p :: !Below(t, level, key, i, p))
  {
    hide Freeing, Intact;
    EntryIs(m0, lo, mb, fb, m, f, t, level, key, page, i);
    var e := m0[page].words[i];
    DoomedEntry(m0, lo, t, level, key, page, i);
    if IsValid(e) && level > 0 {
      ChildIntact(m0, lo, mb, fb, m, f, t, level, key, page, i);
    }
  }

  lemma EntryIs(m0: Mem, lo: nat, mb: Mem, fb: seq<nat>, m: Mem, f: seq<nat>, t: Tree, level: nat, key: nat, page: nat,
                i: nat)
    requires Freeing(m0, mb, fb, m, f, t, level, key, page, i) && i < ENTRIES
    ensures page < |m| == |m0| && m[page].words[i] == m0[page].words[i]
  {
  }

  /** What an entry of a table can be. */
  lemma DoomedEntry(m0: Mem, lo: nat, t: Tree, level: nat, key: nat, page: nat, i: nat)
    requires Doomed(m0, lo, t) && IsTable(t, level, key, page) && i < ENTRIES && page < |m0|
    ensures var e := m0[page].words[i];
            && (IsValid(e) ==> (IsLeaf(PteFlags(e)) <==> level == 0))
            && (IsValid(e) && level > 0 ==> IsTable(t, level - 1, ChildKey(level, key, i), PtePage(e)))
            && (!IsValid(e) && level > 0 ==> forall p :: !Below(t, level, key, i, p))
  {
    if level == 2 {
      RootEntry(m0, lo, t, key, page, i);
    } else if level == 1 {
      MidEntry(m0, lo, t, key, page, i);
    } else {
      LeafEntry(m0, lo, t, key, page, i);
      hide TreeOk;
      var v := key * 512 + i;
      assert Lookup(m0, t, v).Some? ==> IsLeaf(Lookup(m0, t, v).value.flags);
    }
  }

  lemma RootEntry(m0: Mem, lo: nat, t: Tree, key: nat, page: nat, i: nat)
    requires Doomed(m0, lo, t) && IsTable(t, 2, key, page) && i < ENTRIES && page < |m0|
    ensures var e := m0[page].words[i];
            && (IsValid(e) ==> !IsLeaf(PteFlags(e)) && IsTable(t, 1, i, PtePage(e)))
            && (!IsValid(e) ==> forall p :: !Below(t, 2, key, i, p))
  {
    hide LeavesAbove, Lookup;
    assert Points(Entry(m0, page, i), t.mid, i);
    if i in t.mid {
      PteRoundTrip(t.mid[i], PTE_V);
    }
  }

  lemma MidEntry(m0: Mem, lo: nat, t: Tree, key: nat, page: nat, i: nat)
    requires Doomed(m0, lo, t) && IsTable(t, 1, key, page) && i < ENTRIES && page < |m0|
    ensures var e := m0[page].words[i];
            && (IsValid(e) ==> !IsLeaf(PteFlags(e)) && IsTable(t, 0, key * 512 + i, PtePage(e)))
            && (!IsValid(e) ==> forall p :: !Below(t, 1, key, i, p))
  {
    hide LeavesAbove, Lookup;
    assert Points(Entry(m0, page, i), t.low, key * 512 + i);
    if key * 512 + i in t.low {
      PteRoundTrip(t.low[key * 512 + i], PTE_V);
    }
  }

  /** An entry of a last-level table is the translation of its page. */
  lemma LeafEntry(m0: Mem, lo: nat, t: Tree, key: nat, page: nat, i: nat)
    requires Doomed(m0, lo, t) && IsTable(t, 0, key, page) && i < ENTRIES && page < |m0|
    ensures key * 512 + i < MAXVPN && Lookup(m0, t, key * 512 + i) == LeafOf(m0[page].words[i])
  {
    var v := key * 512 + i;
    assert v / 512 == key && Px0(v) == i && key / 512 < ROOT_ENTRIES;
  }

  lemma LeafNext(m0: Mem, lo: nat, t: Tree, key: nat, page: nat, i: nat)
    requires Doomed(m0, lo, t) && IsTable(t, 0, key, page) && page < |m0| && i < ENTRIES && BareFirst(m0, t, 0, key, i)
    ensures BareFirst(m0, t, 0, key, i + 1) <==> !IsValid(m0[page].words[i])
  {
    hide TreeOk, IsTable;
    LeafEntry(m0, lo, t, key, page, i);
    hide Lookup, Doomed;
    var w := key * 512 + i;
    assert Under(0, key, w) && EntryOf(0, w) == i;
    forall v | 0 <= v < MAXVPN && Under(0, key, v) && EntryOf(0, v) < i + 1 && v != w
      ensures Lookup(m0, t, v) == None
    {
      assert EntryOf(0, v) < i;
    }
  }

  lemma InnerNext(m0: Mem, lo: nat, t: Tree, level: nat, key: nat, page: nat, i: nat)
    requires Doomed(m0, lo, t) && 0 < level && IsTable(t, level, key, page) && page < |m0| && i < ENTRIES
    requires BareFirst(m0, t, level, key, i)
    ensures BareFirst(m0, t, level, key, i + 1) <==>
            !IsValid(m0[page].words[i]) || BareFirst(m0, t, level - 1, ChildKey(level, key, i), ENTRIES)
  {
    hide TreeOk, Lookup, Under, EntryOf, Doomed, ChildKey;
    var k := ChildKey(level, key, i);
    forall v: nat | v < MAXVPN
      ensures Under(level - 1, k, v) <==> Under(level, key, v) && EntryOf(level, v) == i
      ensures EntryOf(level - 1, v) < ENTRIES
      ensures !IsValid(m0[page].words[i]) && Under(level - 1, k, v) ==> Lookup(m0, t, v) == None
    {
      ChildUnder(level, key, i, v);
      if !IsValid(m0[page].words[i]) && Under(level - 1, k, v) {
        NoTableBelow(m0, lo, t, level, key, page, i, v);
      }
    }
  }

  lemma NoTableBelow(m0: Mem, lo: nat, t: Tree, level: nat, key: nat, page: nat, i: nat, v: nat)
    requires Doomed(m0, lo, t) && 0 < level && IsTable(t, level, key, page) && page < |m0| && i < ENTRIES
    requires !IsValid(m0[page].words[i]) && Under(level - 1, ChildKey(level, key, i), v)
    ensures Lookup(m0, t, v) == None
  {
    hide LeavesAbove;
    var e := Entry(m0, page, i);
    if level == 2 {
      assert Points(e, t.mid, i);
      if i in t.mid {
        PteRoundTrip(t.mid[i], PTE_V);
      }
    } else {
      assert Points(e, t.low, key * 512 + i);
      if key * 512 + i in t.low {
        PteRoundTrip(t.low[key * 512 + i], PTE_V);
      }
    }
  }

  lemma ChildIntact(m0: Mem, lo: nat, mb: Mem, fb: seq<nat>, m: Mem, f: seq<nat>, t: Tree, level: nat, key: nat,
                    page: nat, i: nat)
    requires Doomed(m0, lo, t) && IsTable(t, level, key, page) && Freeing(m0, mb, fb, m, f, t, level, key, page, i)
             && i < ENTRIES
    requires level > 0
    ensures Intact(m0, m, f, t, level - 1, ChildKey(level, key, i))
  {
    hide Doomed, IsTable, Freeing, InSubtree, ChildKey;
    EntryIs(m0, lo, mb, fb, m, f, t, level, key, page, i);
    var l, k := level - 1, ChildKey(level, key, i);
    forall p | InSubtree(t, l, k, p)
      ensures 0 <= p < |m0| && m[p] == m0[p] && p !in f
    {
      ChildPageIntact(m0, lo, mb, fb, m, f, t, level, key, page, i, p);
    }
    assert Intact(m0, m, f, t, l, k);
  }

  lemma ChildPageIntact(m0: Mem, lo: nat, mb: Mem, fb: seq<nat>, m: Mem, f: seq<nat>, t: Tree, level: nat, key: nat,
                        page: nat, i: nat, p: int)
    requires Doomed(m0, lo, t) && IsTable(t, level, key, page) && Freeing(m0, mb, fb, m, f, t, level, key, page, i)
    requires i < ENTRIES && level > 0 && InSubtree(t, level - 1, ChildKey(level, key, i), p)
    ensures 0 <= p < |m| == |m0| && m[p] == m0[p] && p !in f
  {
    hide Doomed, BelowFirst, InSubtree;
    assert Below(t, level, key, i, p);
    BelowOneMore(t, level, key, i, p);
    BelowAll(m0, lo, t, level, key, page, p);
    TopIsNotBelow(m0, lo, t, level, key, page, i);
  }

  lemma TopIsNotBelow(m0: Mem, lo: nat, t: Tree, level: nat, key: nat, page: nat, i: nat)
    requires IsTable(t, level, key, page)
    ensures !Below(t, level, key, i, page)
  {
  }

  /** The subtree below entry i has been freed; then the entry is cleared. */
  lemma ChildFreed(m0: Mem, lo: nat, mb: Mem, fb: seq<nat>, m1: Mem, f1: seq<nat>, m2: Mem, f2: seq<nat>,
                   t: Tree, level: nat, key: nat, page: nat, i: nat)
    requires Doomed(m0, lo, t) && IsTable(t, level, key, page) && Freeing(m0, mb, fb, m1, f1, t, level, key, page, i)
    requires i < ENTRIES && level > 0 && Reclaimed(m1, f1, m2, f2, t, level - 1, ChildKey(level, key, i))
    ensures page < |m2| && page !in f2
    ensures Freeing(m0, mb, fb, SetEntry(m2, page, i, 0), f2, t, level, key, page, i + 1)
  {
    hide Doomed, BelowFirst, InSubtree, IsTable;
    TopInSubtree(t, level, key, page);
    BelowAll(m0, lo, t, level, key, page, page);
    TopIsNotBelow(m0, lo, t, level, key, page, i);
    forall p
      ensures BelowFirst(t, level, key, i + 1, p) <==> BelowFirst(t, level, key, i, p) || Below(t, level, key, i, p)
      ensures Below(t, level, key, i, p) ==> InSubtree(t, level, key, p)
      ensures InSubtree(t, level, key, p) ==> 0 <= p
    {
      BelowOneMore(t, level, key, i, p);
    }
    BelowOneMore(t, level, key, i, page);
    NotBelowFirst(t, level, key, i, page);
  }

  lemma TopInSubtree(t: Tree, level: nat, key: nat, page: nat)
    requires IsTable(t, level, key, page)
    ensures InSubtree(t, level, key, page)
  {
  }

  lemma NotBelowFirst(t: Tree, level: nat, key: nat, n: nat, page: nat)
    requires IsTable(t, level, key, page)
    ensures !BelowFirst(t, level, key, n, page)
  {
  }

  lemma NothingThere(m0: Mem, lo: nat, mb: Mem, fb: seq<nat>, m: Mem, f: seq<nat>, t: Tree, level: nat, key: nat,
                     page: nat, i: nat)
    requires Freeing(m0, mb, fb, m, f, t, level, key, page, i) && IsTable(t, level, key, page)
    requires i < ENTRIES && (level > 0 ==> forall p :: !Below(t, level, key, i, p))
    ensures Freeing(m0, mb, fb, m, f, t, level, key, page, i + 1)
  {
    hide InSubtree, BelowFirst;
    forall p
      ensures BelowFirst(t, level, key, i + 1, p) <==> BelowFirst(t, level, key, i, p)
    {
      BelowOneMore(t, level, key, i, p);
    }
  }

  lemma FreeingEnds(m0: Mem, lo: nat, mb: Mem, fb: seq<nat>, m: Mem, f: seq<nat>, t: Tree, level: nat, key: nat,
                    page: nat)
    requires Doomed(m0, lo, t) && IsTable(t, level, key, page)
             && Freeing(m0, mb, fb, m, f, t, level, key, page, ENTRIES)
    ensures lo <= page < |m| && page !in f
  {
    hide InSubtree, BelowFirst;
    TopInSubtree(t, level, key, page);
    NotBelowFirst(t, level, key, ENTRIES, page);
  }

  lemma LastFreed(m0: Mem, lo: nat, mb: Mem, fb: seq<nat>, m: Mem, f: seq<nat>, m': Mem, f': seq<nat>,
                  t: Tree, level: nat, key: nat, page: nat)
    requires Doomed(m0, lo, t) && IsTable(t, level, key, page)
             && Freeing(m0, mb, fb, m, f, t, level, key, page, ENTRIES)
    requires |m'| == |m| && f' == [page] + f && forall q :: 0 <= q < |m| && q != page ==> m'[q] == m[q]
    ensures Reclaimed(mb, fb, m', f', t, level, key)
  {
    hide Doomed, IsTable, InSubtree, BelowFirst;
    forall p
      ensures InSubtree(t, level, key, p) <==> p == page || BelowFirst(t, level, key, ENTRIES, p)
    {
      BelowAll(m0, lo, t, level, key, page, p);
    }
  }

  // ----- uvmcopy

  /** Parent and child share no table page, and the parent's first n pages are allocated outside the child. */
  ghost predicate Apart(mem: Mem, free: seq<nat>, tp: Tree, tc: Tree, n: nat) {
    && (forall p :: p in tp.role ==> p !in tc.role)
    && (forall v :: 0 <= v < n && Lookup(mem, tp, v).Some? ==>
          var p := Lookup(mem, tp, v).value.ppn; p < |mem| && p !in free && p !in tc.role)
  }

  /** The first |want| pages have the flags and the bytes of the parent's. */
  ghost predicate CopyOf(m0: Mem, tp: Tree, m: Mem, want: seq<Leaf>) {
    forall j :: 0 <= j < |want| ==>
      && Lookup(m0, tp, j).Some? && Lookup(m0, tp, j).value.ppn < |m0| && want[j].ppn < |m|
      && want[j].flags == Lookup(m0, tp, j).value.flags
      && m[want[j].ppn] == m0[Lookup(m0, tp, j).value.ppn]
  }

  ghost predicate AllMapped(mem: Mem, t: Tree, n: nat) {
    forall v :: 0 <= v < n ==> Lookup(mem, t, v).Some?
  }

  lemma NeedsPage(mem: Mem, t: Tree, n: nat, k: nat)
    requires k < n
    ensures AllMapped(mem, t, n) ==> Lookup(mem, t, k).Some?
  {
    hide Lookup;
  }

  lemma CopiedWereMapped(m0: Mem, tp: Tree, m: Mem, want: seq<Leaf>)
    requires CopyOf(m0, tp, m, want)
    ensures AllMapped(m0, tp, |want|)
  {
    hide Lookup;
  }

  predicate CopyFlagsOk(want: seq<Leaf>) {
    forall j :: 0 <= j < |want| ==> want[j].flags != PTE_V
  }

  lemma CopyStarts(mem: Mem, tp: Tree)
    ensures CopyOf(mem, tp, mem, [])
  {
  }

  /** Pages of the tree are old tables or were free. */
  lemma TablesFrom(m0: Mem, f0: seq<nat>, t0: Tree, m: Mem, f: seq<nat>, t: Tree, lo: nat, start: nat, want: seq<Leaf>)
    requires Extended(m0, f0, t0, m, f, t, lo, start, want)
    ensures forall p :: p in t.role ==> p in t0.role || p in f0
    ensures forall p :: p in f ==> p in f0
    ensures forall p :: 0 <= p < |m| && p !in t.role && p !in f0 ==> m[p] == m0[p]
  {
    hide Lookup, TreeOk, Uses;
  }

  /** Work on the child does not touch the parent's tables. */
  lemma ParentSame(m0: Mem, f0: seq<nat>, lo: nat, tp: Tree, tc: Tree, m: Mem, f: seq<nat>, t: Tree, n: nat,
                   want: seq<Leaf>)
    requires Space(m0, f0, lo, tp) && Apart(m0, f0, tp, tc, n) && Extended(m0, f0, tc, m, f, t, lo, 0, want)
    ensures Space(m, f, lo, tp) && SameTranslations(m0, tp, m, tp)
  {
    hide Lookup;
    ExtendedFacts(m0, f0, tc, m, f, t, lo, 0, want);
    TablesFrom(m0, f0, tc, m, f, t, lo, 0, want);
    hide Extended;
    OtherPagesKeep(m0, m, tp);
  }

  lemma NeedsLeaf(mem: Mem, t: Tree, n: nat, k: nat)
    requires LeafRange(mem, t, 0, n) ==> k < n
    ensures LeafRange(mem, t, 0, n) ==> k < MAXVPN && Lookup(mem, t, k).Some? && Lookup(mem, t, k).value.flags != PTE_V
  {
    hide Lookup;
    var x := Lookup(mem, t, k);
  }

  /** The page that is copied still has the bytes it had at the start. */
  lemma SourcePage(m0: Mem, f0: seq<nat>, tp: Tree, tc: Tree, m: Mem, f: seq<nat>, t: Tree, lo: nat, n: nat,
                   want: seq<Leaf>)
    requires Apart(m0, f0, tp, tc, n) && |want| < n && |want| < MAXVPN && Lookup(m, tp, |want|).Some?
    requires Extended(m0, f0, tc, m, f, t, lo, 0, want) && SameTranslations(m0, tp, m, tp)
    ensures Lookup(m0, tp, |want|) == Lookup(m, tp, |want|)
    ensures var p := Lookup(m0, tp, |want|).value.ppn; p < |m0| == |m| && m[p] == m0[p]
  {
    hide Lookup;
    ExtendedFacts(m0, f0, tc, m, f, t, lo, 0, want);
    TablesFrom(m0, f0, tc, m, f, t, lo, 0, want);
    hide Extended;
  }

  lemma NotLeafRange(m0: Mem, tp: Tree, m1: Mem, want: seq<Leaf>, n: nat)
    requires CopyOf(m0, tp, m1, want) && !CopyFlagsOk(want) && |want| <= n
    ensures !LeafRange(m0, tp, 0, n)
  {
    hide Lookup;
    var j :| 0 <= j < |want| && want[j].flags == PTE_V;
    assert Lookup(m0, tp, j).value.flags == PTE_V;
  }

  lemma AddedFreeable(m0: Mem, f0: seq<nat>, t0: Tree, m: Mem, f: seq<nat>, t: Tree, lo: nat, want: seq<Leaf>)
    requires Extended(m0, f0, t0, m, f, t, lo, 0, want) && |want| <= MAXVPN
    ensures Freeable(m, f, lo, t, 0, |want|)
  {
    hide Lookup, TreeOk, Account;
    forall v | 0 <= v < |want|
      ensures Lookup(m, t, v) == Some(want[v])
    {
    }
  }

  lemma CopyMore(m0: Mem, f0: seq<nat>, tp: Tree, tc: Tree, m: Mem, f: seq<nat>, t: Tree, m': Mem, f': seq<nat>,
                 t': Tree, lo: nat, want: seq<Leaf>, page: nat, flags: nat)
    requires Extended(m0, f0, tc, m, f, t, lo, 0, want) && CopyOf(m0, tp, m, want)
    requires Extended(m0, f0, tc, m', f', t', lo, 0, want + [Leaf(page, WithV(flags))]) && page < |m'|
    requires Lookup(m0, tp, |want|).Some? && Lookup(m0, tp, |want|).value.ppn < |m0|
    requires flags == Lookup(m0, tp, |want|).value.flags && flags % 2 == 1
    requires m'[page] == m0[Lookup(m0, tp, |want|).value.ppn]
    requires forall p :: 0 <= p < |m| && p !in t'.role && p !in f ==> p < |m'| && m'[p] == m[p]
    ensures CopyOf(m0, tp, m', want + [Leaf(page, WithV(flags))])
  {
    hide Lookup, TreeOk, Account;
    var more := want + [Leaf(page, WithV(flags))];
    forall j | 0 <= j < |more|
      ensures Lookup(m0, tp, j).Some? && Lookup(m0, tp, j).value.ppn < |m0| && more[j].ppn < |m'|
      ensures more[j].flags == Lookup(m0, tp, j).value.flags && m'[more[j].ppn] == m0[Lookup(m0, tp, j).value.ppn]
    {
      if j < |want| {
        assert more[j] == want[j];
      }
    }
  }

  /** PTE_W|PTE_X|PTE_R|PTE_U with PTE_V */
  const USER_RWX: nat := 31

  /** Each leaf has all permissions and a page of zeroes. */
  ghost predicate Zeroed(mem: Mem, want: seq<Leaf>) {
    forall j :: 0 <= j < |want| ==>
      want[j].flags == USER_RWX && want[j].ppn < |mem| && mem[want[j].ppn] == Page(ZeroWords())
  }

  lemma BelowSize(k: nat, sz: nat)
    ensures k * PGSIZE < sz <==> k < RoundUp(sz)
    ensures k * PGSIZE / PGSIZE == k
  {
  }

  lemma RoundUpPages(start: nat, n: nat)
    ensures RoundUp(start * PGSIZE) == start && RoundUp((start + n) * PGSIZE) == start + n
  {
  }

  lemma NextIsFresh(mem: Mem, t: Tree, start: nat, n: nat, k: nat)
    requires FreshRange(mem, t, start, n) && k < n
    ensures start + k < MAXVPN && Lookup(mem, t, start + k) == None
  {
    hide Lookup;
    var was := Lookup(mem, t, start + k);
  }

  lemma FreshPrefix(mem: Mem, t: Tree, start: nat, n: nat, k: nat)
    requires FreshRange(mem, t, start, n) && k <= n
    ensures FreshRange(mem, t, start, k)
  {
    hide Lookup;
  }

  lemma NoneZeroed(mem: Mem)
    ensures Zeroed(mem, [])
  {
  }

  lemma ZeroedFlags(mem: Mem, mem': Mem, want: seq<Leaf>)
    requires Zeroed(mem', want)
    ensures forall j :: 0 <= j < |want| ==> want[j].flags != PTE_V
  {
  }

  /** Pages zeroed earlier stay zero while another is added. */
  lemma ZeroedMore(m0: Mem, f0: seq<nat>, t0: Tree, m: Mem, f: seq<nat>, t: Tree, m': Mem, f': seq<nat>, t': Tree,
                   lo: nat, start: nat, want: seq<Leaf>, page: nat)
    requires Extended(m0, f0, t0, m, f, t, lo, start, want) && Zeroed(m, want)
    requires Extended(m0, f0, t0, m', f', t', lo, start, want + [Leaf(page, USER_RWX)]) && page < |m'|
             && m'[page] == Page(ZeroWords())
    requires forall p :: 0 <= p < |m| && p !in t'.role && p !in f ==> p < |m'| && m'[p] == m[p]
    ensures Zeroed(m', want + [Leaf(page, USER_RWX)])
  {
    hide Lookup, TreeOk, Account;
    var more := want + [Leaf(page, USER_RWX)];
    forall j | 0 <= j < |more|
      ensures more[j].flags == USER_RWX && more[j].ppn < |m'| && m'[more[j].ppn] == Page(ZeroWords())
    {
      if j < |want| {
        assert more[j] == want[j];
      }
    }
  }

  // ----- uvmalloc and uvmcopy

  /** PGROUNDUP(sz) / PGSIZE */
  function RoundUp(sz: nat): nat {
    (sz + PGSIZE - 1) / PGSIZE
  }

  lemma RoundUpMono(a: nat, b: nat)
    requires a <= b
    ensures RoundUp(a) <= RoundUp(b)
  {
  }

  lemma RoundUpAligned(a: nat)
    ensures RoundUp(a) * PGSIZE % PGSIZE == 0 && RoundUp(a) * PGSIZE / PGSIZE == RoundUp(a)
  {
  }

  lemma OnePage(vpn: nat, p: nat)
    ensures Pages(vpn * PGSIZE, PGSIZE) == 1 && vpn * PGSIZE / PGSIZE == vpn && p * PGSIZE / PGSIZE == p
  {
  }

  ghost predicate Uses(want: seq<Leaf>, p: nat) {
    exists j :: 0 <= j < |want| && want[j].ppn == p
  }

  /** Every page that was free is still free, or backs one of the new mappings, or is a new table page. */
  ghost predicate Account(f0: seq<nat>, t0: Tree, f: seq<nat>, t: Tree, want: seq<Leaf>) {
    && (forall p :: p in f0 <==> p in f || Uses(want, p) || (p in t.role && p !in t0.role))
    && (forall p :: p in t0.role ==> p in t.role)
  }

  /**
   From m0, pages start, start+1, ... were mapped by the leaves want, each backed by a page of its own; nothing else
   changed.
   */
  ghost predicate Extended(m0: Mem, f0: seq<nat>, t0: Tree, m: Mem, f: seq<nat>, t: Tree, lo: nat, start: nat,
                           want: seq<Leaf>) {
    && Space(m0, f0, lo, t0) && Space(m, f, lo, t) && |m| == |m0| && t.root == t0.root
    && (forall v :: 0 <= v < MAXVPN ==>
          Lookup(m, t, v) == if start <= v < start + |want| then Some(want[v - start]) else Lookup(m0, t0, v))
    && Account(f0, t0, f, t, want)
    && (forall j :: 0 <= j < |want| ==> lo <= want[j].ppn < |m| && want[j].ppn !in f && want[j].ppn !in t.role)
    && (forall i, j :: 0 <= i < j < |want| ==> want[i].ppn != want[j].ppn)
    && (forall p :: 0 <= p < |m| && p !in t.role && p !in f0 ==> m[p] == m0[p])
  }

  lemma ExtendedFacts(m0: Mem, f0: seq<nat>, t0: Tree, m: Mem, f: seq<nat>, t: Tree, lo: nat, start: nat,
                      want: seq<Leaf>)
    requires Extended(m0, f0, t0, m, f, t, lo, start, want)
    ensures Space(m, f, lo, t) && |m| == |m0|
  {
  }

  lemma AccountPage(f0: seq<nat>, t0: Tree, f: seq<nat>, t: Tree, want: seq<Leaf>, leaf: Leaf)
    requires Account(f0, t0, f, t, want) && f != [] && f[0] == leaf.ppn
    ensures Account(f0, t0, f[1..], t, want + [leaf])
  {
    var more := want + [leaf];
    forall p
      ensures p in f || Uses(want, p) <==> p in f[1..] || Uses(more, p)
    {
      assert p in f <==> p == f[0] || p in f[1..];
      UsesMore(want, leaf, p);
    }
  }

  lemma UsesMore(want: seq<Leaf>, leaf: Leaf, p: nat)
    ensures Uses(want + [leaf], p) <==> Uses(want, p) || p == leaf.ppn
  {
    var more := want + [leaf];
    if Uses(want, p) {
      var j :| 0 <= j < |want| && want[j].ppn == p;
      assert more[j].ppn == p;
    }
    if p == leaf.ppn {
      assert more[|want|].ppn == p;
    }
  }

  lemma AccountTables(f0: seq<nat>, t0: Tree, f: seq<nat>, t: Tree, f': seq<nat>, t': Tree, want: seq<Leaf>)
    requires Account(f0, t0, f, t, want) && TookTables(f, f', t, t') && forall p :: p in t.role ==> p !in f
    ensures Account(f0, t0, f', t', want)
  {
    var n := |f| - |f'|;
    assert f == f[..n] + f';
    hide Uses;
  }

  lemma AccountReturn(f0: seq<nat>, t0: Tree, f: seq<nat>, t: Tree, want: seq<Leaf>, leaf: Leaf)
    requires Account(f0, t0, f, t, want + [leaf])
    ensures Account(f0, t0, [leaf.ppn] + f, t, want)
  {
    forall p
      ensures p in [leaf.ppn] + f || Uses(want, p) <==> p in f || Uses(want + [leaf], p)
    {
      UsesMore(want, leaf, p);
    }
  }

  /** A page taken off the free list and filled: not a table, not in use, and no translation changes. */
  lemma TakePage(m0: Mem, f0: seq<nat>, t0: Tree, m: Mem, f: seq<nat>, t: Tree, lo: nat, start: nat, want: seq<Leaf>,
                 p: nat, contents: Page)
    requires Extended(m0, f0, t0, m, f, t, lo, start, want) && f != [] && p == f[0] && lo <= p < |m| && p !in f[1..]
    ensures Space(m[p := contents], f[1..], lo, t) && SameTranslations(m, t, m[p := contents], t)
    ensures p !in t.role && !Uses(want, p)
  {
    assert p in f;
    OtherPagesKeep(m, m[p := contents], t);
    hide TreeOk, Lookup;
    assert forall q :: q in f[1..] ==> q in f;
  }

  lemma MapsOne(m0: Mem, f0: seq<nat>, t0: Tree, m: Mem, f: seq<nat>, t: Tree, m2: Mem, lo: nat, start: nat,
                want: seq<Leaf>)
    requires Extended(m0, f0, t0, m, f, t, lo, start, want) && SameTranslations(m, t, m2, t)
    requires start + |want| < MAXVPN && Lookup(m0, t0, start + |want|) == None
    ensures FreshRange(m2, t, start + |want|, 1)
  {
    hide Lookup, TreeOk, Account;
    assert Lookup(m, t, start + |want|) == None;
  }

  /** A successful iteration extends the mapping by one page. */
  lemma ExtendOne(m0: Mem, f0: seq<nat>, t0: Tree, m: Mem, f: seq<nat>, t: Tree, m2: Mem, m3: Mem, f3: seq<nat>,
                  t3: Tree, lo: nat, start: nat, want: seq<Leaf>, leaf: Leaf)
    requires Extended(m0, f0, t0, m, f, t, lo, start, want) && f != [] && leaf.ppn == f[0] && leaf.ppn !in f[1..]
    requires lo <= leaf.ppn < |m| && |m2| == |m| && m2 == m[leaf.ppn := m2[leaf.ppn]] && SameTranslations(m, t, m2, t)
    requires Mapped(m2, t, m3, t3, start + |want|, 1, leaf.ppn, leaf.flags) && Within(m2, f[1..], t, m3, f3, t3)
    requires Space(m3, f3, lo, t3) && leaf.ppn !in t.role && !Uses(want, leaf.ppn)
    ensures Extended(m0, f0, t0, m3, f3, t3, lo, start, want + [leaf]) && m3[leaf.ppn] == m2[leaf.ppn]
  {
    hide TreeOk, Lookup, Uses;
    AccountPage(f0, t0, f, t, want, leaf);
    assert forall p :: p in f[1..] ==> p in f;
    AccountTables(f0, t0, f[1..], t, f3, t3, want + [leaf]);
    NewTablesWereFree(f[1..], f3, t, t3);
    WantStays(m, f, t, lo, want, leaf, f3, t3);
    forall v | 0 <= v < MAXVPN
      ensures Lookup(m3, t3, v) == if start <= v < start + |want + [leaf]| then Some((want + [leaf])[v - start])
                                   else Lookup(m0, t0, v)
    {
      assert Lookup(m2, t, v) == Lookup(m, t, v);
    }
    assert leaf.ppn in f && leaf.ppn in f0;
    forall p | 0 <= p < |m3| && p !in t3.role && p !in f0
      ensures m3[p] == m0[p]
    {
      assert p !in t.role;
    }
  }

  lemma NewTablesWereFree(f: seq<nat>, f': seq<nat>, t: Tree, t': Tree)
    requires TookTables(f, f', t, t')
    ensures forall p :: p in t'.role ==> p in t.role || p in f
    ensures forall p :: p in t.role ==> p in t'.role
    ensures forall p :: p in f' ==> p in f
  {
    assert f == f[..|f| - |f'|] + f';
  }

  /** The pages in use stay off the free list and out of the tree. */
  lemma WantStays(m: Mem, f: seq<nat>, t: Tree, lo: nat, want: seq<Leaf>, leaf: Leaf, f3: seq<nat>, t3: Tree)
    requires forall j :: 0 <= j < |want| ==> lo <= want[j].ppn < |m| && want[j].ppn !in f && want[j].ppn !in t.role
    requires forall i, j :: 0 <= i < j < |want| ==> want[i].ppn != want[j].ppn
    requires lo <= leaf.ppn < |m| && leaf.ppn in f && leaf.ppn !in f3 && leaf.ppn !in t3.role && !Uses(want, leaf.ppn)
    requires forall p :: p in t3.role ==> p in t.role || p in f
    requires forall p :: p in f3 ==> p in f
    ensures var more := want + [leaf];
            && (forall j :: 0 <= j < |more| ==>
                  lo <= more[j].ppn < |m| && more[j].ppn !in f3 && more[j].ppn !in t3.role)
            && (forall i, j :: 0 <= i < j < |more| ==> more[i].ppn != more[j].ppn)
  {
  }

  lemma WithinFrame(m: Mem, f: seq<nat>, t: Tree, m': Mem, f': seq<nat>, t': Tree)
    requires Within(m, f, t, m', f', t')
    ensures forall p :: 0 <= p < |m| && p !in t'.role ==> p < |m'| && m'[p] == m[p]
  {
  }

  lemma NothingMapped(m: Mem, f: seq<nat>, t: Tree, m': Mem, f': seq<nat>, t': Tree, a: nat, p: nat, flags: nat)
    requires Mapped(m, t, m', t', a, 0, p, flags) && Within(m, f, t, m', f', t') && p !in t.role && p !in f
    ensures SameTranslations(m, t, m', t') && p !in t'.role && p !in f'
  {
    hide Lookup;
    NewTablesWereFree(f, f', t, t');
  }

  /** A failed iteration gives its page back: the mapping is as before, with perhaps more tables in the tree. */
  lemma ExtendFail(m0: Mem, f0: seq<nat>, t0: Tree, m: Mem, f: seq<nat>, t: Tree, m2: Mem, m3: Mem, f3: seq<nat>,
                   t3: Tree, m4: Mem, lo: nat, start: nat, want: seq<Leaf>, p: nat)
    requires Extended(m0, f0, t0, m, f, t, lo, start, want) && f != [] && p == f[0] && p !in f[1..]
    requires lo <= p < |m| && |m2| == |m| && m2 == m[p := m2[p]] && SameTranslations(m, t, m2, t)
    requires SameTranslations(m2, t, m3, t3) && Within(m2, f[1..], t, m3, f3, t3) && Space(m3, f3, lo, t3)
    requires p !in t3.role && |m4| == |m3| && forall q :: 0 <= q < |m3| && q != p ==> m4[q] == m3[q]
    ensures Extended(m0, f0, t0, m4, [p] + f3, t3, lo, start, want)
  {
    hide TreeOk, Lookup, Uses;
    FreeKeepsSpace(t3, m3, f3, m4, [p] + f3, lo, p);
    AccountPage(f0, t0, f, t, want, Leaf(p, 0));
    assert forall q :: q in f[1..] ==> q in f;
    AccountTables(f0, t0, f[1..], t, f3, t3, want + [Leaf(p, 0)]);
    AccountReturn(f0, t0, f3, t3, want, Leaf(p, 0));
    NewTablesWereFree(f[1..], f3, t, t3);
    forall v | 0 <= v < MAXVPN
      ensures Lookup(m4, t3, v) == if start <= v < start + |want| then Some(want[v - start]) else Lookup(m0, t0, v)
    {
      assert Lookup(m4, t3, v) == Lookup(m3, t3, v) == Lookup(m2, t, v) == Lookup(m, t, v);
    }
    assert p in f && p in f0;
    forall q | 0 <= q < |m4| && q !in t3.role && q !in f0
      ensures m4[q] == m0[q]
    {
      assert q !in t.role;
    }
  }

  lemma ExtendedNone(mem: Mem, free: seq<nat>, t: Tree, lo: nat, start: nat)
    requires Space(mem, free, lo, t)
    ensures Extended(mem, free, t, mem, free, t, lo, start, [])
  {
    hide Lookup, TreeOk;
  }

  /** What was added can be removed again. */
  lemma UndoReady(m0: Mem, f0: seq<nat>, t0: Tree, m: Mem, f: seq<nat>, t: Tree, lo: nat, start: nat, want: seq<Leaf>)
    requires Extended(m0, f0, t0, m, f, t, lo, start, want) && start + |want| <= MAXVPN
    requires forall j :: 0 <= j < |want| ==> want[j].flags != PTE_V
    ensures Space(m, f, lo, t) && Freeable(m, f, lo, t, start, |want|) && LeafRange(m, t, start, |want|)
  {
    hide Lookup, TreeOk, Account;
    forall v | start <= v < start + |want|
      ensures v < MAXVPN && Lookup(m, t, v) == Some(want[v - start])
    {
    }
  }

  lemma {:induction false} BackingIsWant(m: Mem, t: Tree, start: nat, want: seq<Leaf>, n: nat, p: nat)
    requires n <= |want| && forall v :: start <= v < start + |want| ==> Lookup(m, t, v) == Some(want[v - start])
    ensures p in Backing(m, t, start, n) <==> Uses(want[..n], p)
  {
    hide Lookup;
    if n > 0 {
      BackingIsWant(m, t, start, want, n - 1, p);
      var v := start + n - 1;
      assert Lookup(m, t, v) == Some(want[v - start]);
      assert want[..n] == want[..n - 1] + [want[n - 1]];
      UsesMore(want[..n - 1], want[n - 1], p);
    }
  }

  /** Unmapping and freeing what was added restores every translation and every user page. */
  lemma UndoExtended(m0: Mem, f0: seq<nat>, t0: Tree, m: Mem, f: seq<nat>, m': Mem, f': seq<nat>, t: Tree,
                     lo: nat, start: nat, want: seq<Leaf>)
    requires Extended(m0, f0, t0, m, f, t, lo, start, want) && start + |want| <= MAXVPN
             && FreshRange(m0, t0, start, |want|)
    requires Unmapped(m, f, t, m', f', lo, start, |want|, true)
    ensures Extended(m0, f0, t0, m', f', t, lo, start, [])
  {
    hide Lookup, TreeOk, Backing, Uses;
    forall v | start <= v < start + |want|
      ensures Lookup(m, t, v) == Some(want[v - start])
    {
    }
    assert want[..|want|] == want;
    forall p
      ensures p in Backing(m, t, start, |want|) <==> Uses(want, p)
    {
      BackingIsWant(m, t, start, want, |want|, p);
    }
    UsesNone();
    forall v | 0 <= v < MAXVPN
      ensures Lookup(m', t, v) == Lookup(m0, t0, v)
    {
      if start <= v < start + |want| {
        assert Lookup(m0, t0, v) == None;
      }
    }
  }

  lemma UsesNone()
    ensures forall p :: !Uses([], p)
  {
  }

  // ----- uvmunmap

  /** Every page of the range is mapped by a leaf entry. */
  ghost predicate LeafRange(mem: Mem, t: Tree, a: nat, n: nat) {
    && (n > 0 ==> a + n <= MAXVPN)
    && forall v :: a <= v < a + n ==> Lookup(mem, t, v).Some? && Lookup(mem, t, v).value.flags != PTE_V
  }

  /** The mapped pages of the range are allocated, not table pages, and mapped once. */
  ghost predicate Freeable(mem: Mem, free: seq<nat>, lo: nat, t: Tree, a: nat, n: nat) {
    && (forall v :: a <= v < a + n && Lookup(mem, t, v).Some? ==>
          var p := Lookup(mem, t, v).value.ppn; lo <= p < |mem| && p !in free && p !in t.role)
    && (forall v, w :: a <= v < w < a + n && Lookup(mem, t, v).Some? && Lookup(mem, t, w).Some? ==>
          Lookup(mem, t, v).value.ppn != Lookup(mem, t, w).value.ppn)
  }

  /** The physical pages of n mapped pages from a, last first. */
  ghost function Backing(mem: Mem, t: Tree, a: nat, n: nat): (s: seq<nat>)
    ensures |s| == n
  {
    if n == 0 then []
    else
      [if Lookup(mem, t, a + n - 1).Some? then Lookup(mem, t, a + n - 1).value.ppn else 0] + Backing(mem, t, a, n - 1)
  }

  lemma {:induction false} BackingHas(mem: Mem, t: Tree, a: nat, n: nat, p: nat)
    requires p in Backing(mem, t, a, n) && forall v :: a <= v < a + n ==> Lookup(mem, t, v).Some?
    ensures exists v :: a <= v < a + n && Lookup(mem, t, v).Some? && Lookup(mem, t, v).value.ppn == p
  {
    hide Lookup;
    if n > 0 && p != Lookup(mem, t, a + n - 1).value.ppn {
      BackingHas(mem, t, a, n - 1, p);
    }
  }

  /** From mem to mem', pages [a, a + n) were unmapped and nothing else; with doFree their physical pages were freed. */
  ghost predicate Unmapped(mem: Mem, free: seq<nat>, t: Tree, mem': Mem, free': seq<nat>, lo: nat, a: nat, n: nat,
                           doFree: bool) {
    && Space(mem', free', lo, t) && |mem'| == |mem|
    && (forall v :: 0 <= v < MAXVPN ==> Lookup(mem', t, v) == if a <= v < a + n then None else Lookup(mem, t, v))
    && free' == (if doFree then Backing(mem, t, a, n) + free else free)
    && (forall p :: 0 <= p < |mem| && p !in t.role && !(doFree && p in Backing(mem, t, a, n)) ==> mem'[p] == mem[p])
  }

  lemma UnmappedNone(mem: Mem, free: seq<nat>, t: Tree, lo: nat, a: nat, doFree: bool)
    requires Space(mem, free, lo, t)
    ensures Unmapped(mem, free, t, mem, free, lo, a, 0, doFree) && LeafRange(mem, t, a, 0)
  {
    hide Lookup, TreeOk;
  }

  /** The next page of the range is still as it was. */
  lemma LeafOneMore(m0: Mem, f0: seq<nat>, t: Tree, m1: Mem, f1: seq<nat>, lo: nat, a: nat, k: nat, n: nat,
                    doFree: bool)
    requires Unmapped(m0, f0, t, m1, f1, lo, a, k, doFree) && LeafRange(m0, t, a, k) && k < n
    ensures LeafRange(m0, t, a, k + 1) <==>
            a + k < MAXVPN && Lookup(m1, t, a + k).Some? && Lookup(m1, t, a + k).value.flags != PTE_V
    ensures LeafRange(m0, t, a, n) ==> LeafRange(m0, t, a, k + 1)
  {
    hide Lookup, TreeOk, Backing;
    var v := a + k;
    var was := Lookup(m0, t, v);
    if v < MAXVPN {
      assert Lookup(m1, t, v) == was;
    }
    if v < MAXVPN && was.Some? && was.value.flags != PTE_V {
      forall w | a <= w < a + (k + 1)
        ensures Lookup(m0, t, w).Some? && Lookup(m0, t, w).value.flags != PTE_V
      {
      }
    }
  }

  lemma NextIsFreeable(m0: Mem, f0: seq<nat>, t: Tree, m1: Mem, f1: seq<nat>, lo: nat, a: nat, k: nat, n: nat)
    requires Unmapped(m0, f0, t, m1, f1, lo, a, k, true) && LeafRange(m0, t, a, k + 1) && Freeable(m0, f0, lo, t, a, n)
             && k < n
    ensures Lookup(m1, t, a + k).Some? && Lookup(m1, t, a + k) == Lookup(m0, t, a + k)
    ensures var p := Lookup(m1, t, a + k).value.ppn; lo <= p < |m1| && p !in f1 && p !in t.role
  {
    hide Lookup, TreeOk;
    var leaf := Lookup(m0, t, a + k);
    assert leaf.Some? && Lookup(m1, t, a + k) == leaf;
    var p := leaf.value.ppn;
    if p in Backing(m0, t, a, k) {
      BackingHas(m0, t, a, k, p);
    }
  }

  /** kfree of the physical page of a + k. */
  ghost predicate NextFreed(m0: Mem, t: Tree, m1: Mem, f1: seq<nat>, m2: Mem, f2: seq<nat>, lo: nat, a: nat, k: nat) {
    && Lookup(m0, t, a + k).Some? && |m2| == |m1|
    && var p := Lookup(m0, t, a + k).value.ppn;
    && lo <= p < |m1| && p !in f1 && p !in t.role && f2 == [p] + f1
    && forall q :: 0 <= q < |m1| && q != p ==> m2[q] == m1[q]
  }

  lemma UnmappedSpace(m0: Mem, f0: seq<nat>, t: Tree, m1: Mem, f1: seq<nat>, lo: nat, a: nat, n: nat, doFree: bool)
    requires Unmapped(m0, f0, t, m1, f1, lo, a, n, doFree)
    ensures Space(m1, f1, lo, t) && |m1| == |m0|
  {
  }

  lemma MissingIsNone(mem: Mem, t: Tree, vpn: nat)
    requires vpn / 512 !in t.low
    ensures Lookup(mem, t, vpn) == None
  {
  }

  /** kfree of a page that is not a table leaves the address space as it was. */
  lemma FreeKeepsSpace(t: Tree, m1: Mem, f1: seq<nat>, m2: Mem, f2: seq<nat>, lo: nat, p: nat)
    requires Space(m1, f1, lo, t) && p !in t.role && |m2| == |m1| && f2 == [p] + f1
    requires forall q :: 0 <= q < |m1| && q != p ==> m2[q] == m1[q]
    ensures Space(m2, f2, lo, t) && SameTranslations(m1, t, m2, t)
  {
    OtherPagesKeep(m1, m2, t);
  }

  /** One iteration: the physical page freed if asked for (m2), then the leaf entry cleared. */
  lemma UnmappedOneMore(m0: Mem, f0: seq<nat>, t: Tree, m1: Mem, f1: seq<nat>, m2: Mem, f2: seq<nat>, lo: nat,
                        a: nat, k: nat, doFree: bool, page: nat)
    requires Unmapped(m0, f0, t, m1, f1, lo, a, k, doFree) && LeafRange(m0, t, a, k + 1) && Reached(t, a + k, 0, page)
    requires doFree ==> NextFreed(m0, t, m1, f1, m2, f2, lo, a, k)
    requires !doFree ==> m2 == m1 && f2 == f1
    ensures page < |m2| && page in t.role && Space(m2, f2, lo, t)
    ensures Unmapped(m0, f0, t, SetEntry(m2, page, Px0(a + k), 0), f2, lo, a, k + 1, doFree)
  {
    hide TreeOk, Lookup, Reached;
    assert Lookup(m0, t, a + k).Some?;
    var p := Lookup(m0, t, a + k).value.ppn;
    if doFree {
      FreeKeepsSpace(t, m1, f1, m2, f2, lo, p);
      assert Backing(m0, t, a, k + 1) == [p] + Backing(m0, t, a, k);
      assert f2 == Backing(m0, t, a, k + 1) + f0;
    }
    hide Backing;
    GrownRefl(m2, f2, t);
    LeafWrite(m2, f2, t, m2, f2, t, m2, f2, t, lo, a + k, 0, page);
    var m3 := SetEntry(m2, page, Px0(a + k), 0);
    forall v | 0 <= v < MAXVPN
      ensures Lookup(m3, t, v) == if a <= v < a + (k + 1) then None else Lookup(m0, t, v)
    {
      assert Lookup(m2, t, v) == Lookup(m1, t, v);
    }
  }

  /** Pages that [va, va+size) touches. */
  function Pages(va: nat, size: nat): nat {
    if size == 0 then 0 else (va + size - 1) / PGSIZE - va / PGSIZE + 1
  }

  lemma PagesAre(va: nat, size: nat)
    requires size > 0
    ensures va / PGSIZE <= (va + size - 1) / PGSIZE
    ensures Pages(va, size) == (va + size - 1) / PGSIZE - va / PGSIZE + 1
  {
  }

  /** Pages [a, a + n) exist and are unmapped. */
  ghost predicate FreshRange(mem: Mem, t: Tree, a: nat, n: nat) {
    (n > 0 ==> a + n <= MAXVPN) && forall v :: a <= v < a + n ==> Lookup(mem, t, v) == None
  }

  lemma NotFresh(mem: Mem, t: Tree, a: nat, n: nat, m: nat)
    requires n <= m
    ensures FreshRange(mem, t, a, m) ==> FreshRange(mem, t, a, n)
  {
    hide Lookup;
  }

  lemma FreshNone(mem: Mem, t: Tree, a: nat)
    ensures FreshRange(mem, t, a, 0)
  {
  }

  /** Whether the next page is free can be read after mapping the earlier ones and walking. */
  lemma FreshOneMore(m0: Mem, t0: Tree, m1: Mem, t1: Tree, m2: Mem, t2: Tree, a: nat, n: nat, ppn: nat, flags: nat,
                     f1: seq<nat>, f2: seq<nat>)
    requires FreshRange(m0, t0, a, n) && Mapped(m0, t0, m1, t1, a, n, ppn, flags) && Grown(m1, f1, t1, m2, f2, t2)
    ensures FreshRange(m0, t0, a, n + 1) <==> a + n < MAXVPN && Lookup(m2, t2, a + n) == None
  {
    hide Lookup, Within;
    var v := a + n;
    var was := Lookup(m0, t0, v);
    if v < MAXVPN {
      assert Lookup(m1, t1, v) == was && Lookup(m2, t2, v) == was;
    }
    if was == None && v < MAXVPN {
      forall w | a <= w < a + n + 1
        ensures Lookup(m0, t0, w) == None
      {
      }
    }
  }

  lemma WithinRoot(m0: Mem, f0: seq<nat>, t0: Tree, m1: Mem, f1: seq<nat>, t1: Tree)
    requires Within(m0, f0, t0, m1, f1, t1)
    ensures t1.root == t0.root && |m1| == |m0|
  {
  }

  lemma GrownMapped(m0: Mem, f0: seq<nat>, t0: Tree, m1: Mem, f1: seq<nat>, t1: Tree, m2: Mem, f2: seq<nat>, t2: Tree,
                    a: nat, n: nat, ppn: nat, flags: nat)
    requires Mapped(m0, t0, m1, t1, a, n, ppn, flags) && Within(m0, f0, t0, m1, f1, t1) && Grown(m1, f1, t1, m2, f2, t2)
    ensures Mapped(m0, t0, m2, t2, a, n, ppn, flags) && Within(m0, f0, t0, m2, f2, t2)
  {
    hide Lookup;
    WithinTrans(m0, f0, t0, m1, f1, t1, m2, f2, t2);
  }

  lemma WalkStarts(t: Tree, vpn: nat)
    ensures Reached(t, vpn, 2, t.root) && Descending(t, t, vpn, 2, 0)
  {
  }

  lemma NoLow(mem: Mem, t: Tree, vpn: nat, level: nat)
    requires TreeOk(mem, t) && vpn < MAXVPN
    requires if level == 2 then Px2(vpn) !in t.mid else vpn / 512 !in t.low
    ensures vpn / 512 !in t.low
  {
    IndexSplit(vpn);
  }
}
