/**
 The three-level Sv39 page table (section 4.4 of the RISC-V Privileged
 Architecture) as kernel/vm.c lays it out in physical pages: what the hardware
 sees when it walks memory, and the tree of table pages that explains it.
 */
module PageTable {
  import opened Common

  const ENTRIES: nat := 512
  const PGSIZE: nat := 4096
  /** One past the highest virtual page number: MAXVA / PGSIZE. */
  const MAXVPN: nat := 0x400_0000
  /** Entries of the root table that addresses below MAXVA use. */
  const ROOT_ENTRIES: nat := 256
  const PTE_V: nat := 1

  type Words = w: seq<nat> | |w| == ENTRIES witness seq(ENTRIES, i => 0)
  datatype Page = Page(words: Words)

  type Mem = seq<Page>

  function ZeroWords(): (z: Words)
    ensures forall i :: 0 <= i < ENTRIES ==> z[i] == 0
  {
    seq(ENTRIES, i => 0)
  }

  function FillWords(x: nat): (z: Words)
    ensures forall i :: 0 <= i < ENTRIES ==> z[i] == x
  {
    seq(ENTRIES, i => x)
  }

  // ----- page table entries (kernel/riscv.h)

  /** A page table entry, for a page number and ten flag bits. */
  function MakePte(ppn: nat, flags: nat): nat {
    ppn * 1024 + flags
  }

  /** PTE2PA, as a page number. */
  function PtePage(pte: nat): nat {
    pte / 1024
  }

  function PteFlags(pte: nat): nat {
    pte % 1024
  }

  predicate IsValid(pte: nat) {
    pte % 2 == 1
  }

  /** Whether some permission bit (read, write or execute) is set. */
  predicate IsLeaf(flags: nat) {
    flags / 2 % 8 != 0
  }

  /** The flags with the valid bit set. */
  function WithV(flags: nat): nat {
    if flags % 2 == 1 then flags else flags + 1
  }

  /** A page number and its flags survive the trip through an entry. */
  lemma PteRoundTrip(ppn: nat, flags: nat)
    requires flags < 1024
    ensures PtePage(MakePte(ppn, flags)) == ppn && PteFlags(MakePte(ppn, flags)) == flags
    ensures IsValid(MakePte(ppn, flags)) <==> flags % 2 == 1
  {
    assert MakePte(ppn, flags) == 2 * (512 * ppn) + flags;
  }

  // ----- what the hardware sees

  /** PX(level, va), for a virtual page number. */
  function Px2(vpn: nat): nat { vpn / 512 / 512 % 512 }
  function Px1(vpn: nat): nat { vpn / 512 % 512 }
  function Px0(vpn: nat): nat { vpn % 512 }

  datatype Leaf = Leaf(ppn: nat, flags: nat)

  function Entry(mem: Mem, page: nat, i: nat): nat
    requires i < ENTRIES
  {
    if page < |mem| then mem[page].words[i] else 0
  }

  /** The translation of a virtual page: three dependent loads, each of a valid entry. */
  function Translate(mem: Mem, root: nat, vpn: nat): Option<Leaf> {
    var e2 := Entry(mem, root, Px2(vpn));
    if !IsValid(e2) then None
    else
      var e1 := Entry(mem, PtePage(e2), Px1(vpn));
      if !IsValid(e1) then None
      else
        var e0 := Entry(mem, PtePage(e1), Px0(vpn));
        if !IsValid(e0) then None else Some(Leaf(PtePage(e0), PteFlags(e0)))
  }

  // ----- the tree of table pages

  datatype Role = RootTable | MidTable(i: nat) | LowTable(k: nat)

  /** mid is indexed by PX(2, va), low by va >> 21, that is by both upper indices; role inverts them. */
  datatype Tree = Tree(root: nat, mid: map<nat, nat>, low: map<nat, nat>, role: map<nat, Role>)

  /** Each table page plays exactly one role. */
  ghost predicate Roles(t: Tree) {
    && t.root in t.role && t.role[t.root] == RootTable
    && (forall i :: i in t.mid ==> i < ROOT_ENTRIES && t.mid[i] in t.role && t.role[t.mid[i]] == MidTable(i))
    && (forall k :: k in t.low ==> t.low[k] in t.role && t.role[t.low[k]] == LowTable(k) && k / 512 in t.mid)
    && (forall p :: p in t.role ==>
          match t.role[p]
          case RootTable => p == t.root
          case MidTable(i) => i in t.mid && t.mid[i] == p
          case LowTable(k) => k in t.low && t.low[k] == p)
  }

  /** Entry e points to the table page m[i], or is invalid if there is none. */
  predicate Points(e: nat, m: map<nat, nat>, i: nat) {
    if i in m then e == MakePte(m[i], PTE_V) else !IsValid(e)
  }

  /** Upper-level entries in memory are those of the tree. */
  ghost predicate InMemory(mem: Mem, t: Tree) {
    && (forall p :: p in t.role ==> p < |mem|)
    && (forall i :: 0 <= i < ENTRIES ==> Points(Entry(mem, t.root, i), t.mid, i))
    && (forall i, j :: i in t.mid && 0 <= j < ENTRIES ==> Points(Entry(mem, t.mid[i], j), t.low, i * 512 + j))
  }

  ghost predicate TreeOk(mem: Mem, t: Tree) {
    Roles(t) && InMemory(mem, t)
  }

  function LeafOf(e: nat): Option<Leaf> {
    if IsValid(e) then Some(Leaf(PtePage(e), PteFlags(e))) else None
  }

  /** The translation of a page, read off the tree. */
  function Lookup(mem: Mem, t: Tree, vpn: nat): Option<Leaf> {
    if vpn / 512 in t.low then LeafOf(Entry(mem, t.low[vpn / 512], Px0(vpn))) else None
  }

  /** For a well-formed tree the hardware's walk finds exactly the tree's leaf entry. */
  lemma TranslateIsLookup(mem: Mem, t: Tree, vpn: nat)
    requires TreeOk(mem, t) && vpn < MAXVPN
    ensures Translate(mem, t.root, vpn) == Lookup(mem, t, vpn)
  {
    var i, j := Px2(vpn), Px1(vpn);
    IndexSplit(vpn);
    assert Points(Entry(mem, t.root, i), t.mid, i);
    if i in t.mid {
      PteRoundTrip(t.mid[i], PTE_V);
      assert Points(Entry(mem, t.mid[i], j), t.low, i * 512 + j);
      if vpn / 512 in t.low {
        PteRoundTrip(t.low[vpn / 512], PTE_V);
      }
    }
  }

  /** Below MAXVA the three nine-bit indices determine the page. */
  lemma IndexSplit(vpn: nat)
    requires vpn < MAXVPN
    ensures Px2(vpn) == vpn / 512 / 512 && Px2(vpn) * 512 + Px1(vpn) == vpn / 512
    ensures (Px2(vpn) * 512 + Px1(vpn)) * 512 + Px0(vpn) == vpn
  {
  }

  /** Different pages use different leaf slots. */
  lemma IndicesInjective(v: nat, w: nat)
    requires v < MAXVPN && w < MAXVPN && Px2(v) == Px2(w) && Px1(v) == Px1(w) && Px0(v) == Px0(w)
    ensures v == w
  {
    IndexSplit(v);
    IndexSplit(w);
  }

  // ----- updates of the tree

  /** walk links a zeroed page below the root. */
  function AddMid(t: Tree, i: nat, page: nat): Tree {
    t.(mid := t.mid[i := page], role := t.role[page := MidTable(i)])
  }

  function AddLow(t: Tree, k: nat, page: nat): Tree {
    t.(low := t.low[k := page], role := t.role[page := LowTable(k)])
  }

  function SetEntry(mem: Mem, page: nat, i: nat, e: nat): Mem
    requires page < |mem| && i < ENTRIES
  {
    mem[page := Page(mem[page].words[i := e])]
  }

  /** Every translation is the same. */
  ghost predicate SameTranslations(mem: Mem, t: Tree, mem': Mem, t': Tree) {
    forall v :: 0 <= v < MAXVPN ==> Lookup(mem', t', v) == Lookup(mem, t, v)
  }

  /** Adding an empty middle table leaves the tree well formed and every translation unchanged. */
  lemma AddMidKeeps(mem: Mem, t: Tree, i: nat, page: nat)
    requires TreeOk(mem, t) && i < ROOT_ENTRIES && i !in t.mid
    requires page < |mem| && page !in t.role && mem[page].words == ZeroWords()
    ensures var mem', t' := SetEntry(mem, t.root, i, MakePte(page, PTE_V)), AddMid(t, i, page);
            TreeOk(mem', t') && SameTranslations(mem, t, mem', t')
  {
    var mem', t' := SetEntry(mem, t.root, i, MakePte(page, PTE_V)), AddMid(t, i, page);
    hide Roles, Lookup, Points;
    AddMidRoles(t, i, page);
    AddMidSame(mem, t, i, page, MakePte(page, PTE_V));
    forall a, j | a in t'.mid && 0 <= j < ENTRIES
      ensures Points(Entry(mem', t'.mid[a], j), t'.low, a * 512 + j)
    {
      AddMidEntry(mem, t, i, page, a, j);
    }
    forall a | 0 <= a < ENTRIES
      ensures Points(Entry(mem', t'.root, a), t'.mid, a)
    {
      AddMidRoot(mem, t, i, page, a);
    }
  }

  lemma AddMidRoot(mem: Mem, t: Tree, i: nat, page: nat, a: nat)
    requires InMemory(mem, t) && t.root < |mem| && i < ENTRIES && a < ENTRIES
    ensures Points(Entry(SetEntry(mem, t.root, i, MakePte(page, PTE_V)), t.root, a), AddMid(t, i, page).mid, a)
  {
    hide MakePte;
    assert Points(Entry(mem, t.root, a), t.mid, a);
  }

  /** A store into the root table changes no last-level table. */
  lemma AddMidSame(mem: Mem, t: Tree, i: nat, page: nat, e: nat)
    requires Roles(t) && t.root < |mem| && i < ENTRIES
    ensures SameTranslations(mem, t, SetEntry(mem, t.root, i, e), AddMid(t, i, page))
  {
  }

  lemma AddMidEntry(mem: Mem, t: Tree, i: nat, page: nat, a: nat, j: nat)
    requires TreeOk(mem, t) && i < ROOT_ENTRIES && i !in t.mid && page < |mem| && page !in t.role
    requires mem[page].words == ZeroWords() && a in AddMid(t, i, page).mid && j < ENTRIES
    ensures Points(Entry(SetEntry(mem, t.root, i, MakePte(page, PTE_V)), AddMid(t, i, page).mid[a], j), t.low,
                   a * 512 + j)
  {
    hide MakePte;
    assert (a * 512 + j) / 512 == a;
    if a != i {
      assert Points(Entry(mem, t.mid[a], j), t.low, a * 512 + j);
    }
  }

  lemma AddMidRoles(t: Tree, i: nat, page: nat)
    requires Roles(t) && i < ROOT_ENTRIES && i !in t.mid && page !in t.role
    ensures Roles(AddMid(t, i, page))
  {
  }

  lemma AddLowKeeps(mem: Mem, t: Tree, k: nat, page: nat)
    requires TreeOk(mem, t) && k / 512 in t.mid && k !in t.low
    requires page < |mem| && page !in t.role && mem[page].words == ZeroWords()
    ensures t.mid[k / 512] < |mem|
    ensures var mem', t' := SetEntry(mem, t.mid[k / 512], k % 512, MakePte(page, PTE_V)), AddLow(t, k, page);
            TreeOk(mem', t') && SameTranslations(mem, t, mem', t')
  {
    var i := k / 512;
    var mem', t' := SetEntry(mem, t.mid[i], k % 512, MakePte(page, PTE_V)), AddLow(t, k, page);
    AddLowRoles(t, k, page);
    PteRoundTrip(page, PTE_V);
    hide MakePte, Roles;
    forall a, j | a in t'.mid && 0 <= j < ENTRIES
      ensures Points(Entry(mem', t'.mid[a], j), t'.low, a * 512 + j)
    {
      AddLowEntry(mem, t, k, page, a, j);
    }
    MidIsTable(t, i);
    forall a | 0 <= a < ENTRIES
      ensures Points(Entry(mem', t'.root, a), t'.mid, a)
    {
      assert Points(Entry(mem, t.root, a), t.mid, a);
    }
  }

  /** A table plays one role: the middle tables are not the root, and are different. */
  lemma MidIsTable(t: Tree, i: nat)
    requires Roles(t) && i in t.mid
    ensures t.mid[i] in t.role && t.mid[i] != t.root && forall a :: a in t.mid && a != i ==> t.mid[a] != t.mid[i]
  {
  }

  lemma AddLowEntry(mem: Mem, t: Tree, k: nat, page: nat, a: nat, j: nat)
    requires TreeOk(mem, t) && k / 512 in t.mid && k !in t.low && a in t.mid && j < ENTRIES
    requires page < |mem| && t.mid[k / 512] < |mem|
    ensures Points(Entry(SetEntry(mem, t.mid[k / 512], k % 512, MakePte(page, PTE_V)), t.mid[a], j), t.low[k := page],
                   a * 512 + j)
  {
    hide MakePte, Roles;
    MidIsTable(t, k / 512);
    assert Points(Entry(mem, t.mid[a], j), t.low, a * 512 + j);
    assert (a * 512 + j) / 512 == a && (a * 512 + j) % 512 == j;
  }

  lemma AddLowRoles(t: Tree, k: nat, page: nat)
    requires Roles(t) && k / 512 in t.mid && k !in t.low && page !in t.role
    ensures Roles(AddLow(t, k, page))
  {
  }

  /** Writing a leaf entry changes the translation of its page and of no other. */
  lemma SetLeafKeeps(mem: Mem, t: Tree, vpn: nat, e: nat)
    requires TreeOk(mem, t) && vpn / 512 in t.low
    ensures t.low[vpn / 512] < |mem|
    ensures var mem' := SetEntry(mem, t.low[vpn / 512], Px0(vpn), e);
            TreeOk(mem', t)
            && forall v :: 0 <= v < MAXVPN ==> Lookup(mem', t, v) == if v == vpn then LeafOf(e) else Lookup(mem, t, v)
  {
    var mem' := SetEntry(mem, t.low[vpn / 512], Px0(vpn), e);
    forall a, j | a in t.mid && 0 <= j < ENTRIES
      ensures Points(Entry(mem', t.mid[a], j), t.low, a * 512 + j)
    {
      assert Points(Entry(mem, t.mid[a], j), t.low, a * 512 + j);
    }
    forall a | 0 <= a < ENTRIES
      ensures Points(Entry(mem', t.root, a), t.mid, a)
    {
      assert Points(Entry(mem, t.root, a), t.mid, a);
    }
    forall v | 0 <= v < MAXVPN
      ensures Lookup(mem', t, v) == if v == vpn then LeafOf(e) else Lookup(mem, t, v)
    {
      if v / 512 == vpn / 512 && v != vpn {
        assert Px0(v) != Px0(vpn);
      }
    }
  }

  /** Writing pages that are not tables of the tree changes nothing about it. */
  lemma OtherPagesKeep(mem: Mem, mem': Mem, t: Tree)
    requires TreeOk(mem, t) && |mem'| == |mem|
    requires forall p :: p in t.role ==> p < |mem| && mem'[p] == mem[p]
    ensures TreeOk(mem', t) && SameTranslations(mem, t, mem', t)
  {
    forall a, j | a in t.mid && 0 <= j < ENTRIES
      ensures Points(Entry(mem', t.mid[a], j), t.low, a * 512 + j)
    {
      assert Points(Entry(mem, t.mid[a], j), t.low, a * 512 + j);
    }
    forall a | 0 <= a < ENTRIES
      ensures Points(Entry(mem', t.root, a), t.mid, a)
    {
      assert Points(Entry(mem, t.root, a), t.mid, a);
    }
  }
}
