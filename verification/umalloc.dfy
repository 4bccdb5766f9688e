/**
 The user heap (user/umalloc.c): a circular, address-ordered free list threaded
 through the headers of the free blocks. Addresses count Header-sized units.
 */
module Umalloc {

  /** A run of len units starting at the header at. */
  datatype Blk = Blk(at: int, len: int) {
    function End(): int { at + len }
  }

  // ----- the free list as a value, in address order from the static base header

  function Next(k: nat, n: nat): (r: nat)
    requires k < n
    ensures r < n
  {
    if k + 1 == n then 0 else k + 1
  }

  /** Address-sorted and fully coalesced: a gap of at least one unit between any two blocks. */
  ghost predicate Apart(fl: seq<Blk>) {
    forall j, k :: 0 <= j < k < |fl| ==> fl[j].End() < fl[k].at
  }

  /** The first block is the empty base; every other block has at least one unit. */
  ghost predicate Sized(fl: seq<Blk>) {
    fl != [] && fl[0].len == 0 && forall k :: 0 < k < |fl| ==> fl[k].len > 0
  }

  /** Unit u belongs to a free block. */
  ghost predicate InFree(fl: seq<Blk>, u: int) {
    exists k :: 0 <= k < |fl| && fl[k].at <= u < fl[k].End()
  }

  ghost predicate InLive(live: map<int, int>, u: int) {
    exists a :: a in live && a <= u < a + live[a]
  }

  /** No live block overlaps a free one or another live one. */
  ghost predicate Disjoint(fl: seq<Blk>, live: map<int, int>) {
    && (forall k, a :: 0 <= k < |fl| && a in live ==> fl[k].End() <= a || a + live[a] <= fl[k].at)
    && (forall a, b :: a in live && b in live && a < b ==> a + live[a] <= b)
  }

  /** Free and live blocks are exactly the units obtained from sbrk. */
  ghost predicate Tiles(fl: seq<Blk>, live: map<int, int>, got: set<int>) {
    forall u :: u in got <==> InFree(fl, u) || InLive(live, u)
  }

  /** b ends where the block after t begins, or begins where block t ends. */
  predicate JoinsNext(fl: seq<Blk>, t: nat, b: Blk) {
    t + 1 < |fl| && b.End() == fl[t + 1].at
  }

  predicate JoinsPrev(fl: seq<Blk>, t: nat, b: Blk) {
    t < |fl| && fl[t].End() == b.at
  }

  /** b with the block after t, if it touches it. */
  function WithNext(fl: seq<Blk>, t: nat, b: Blk): Blk {
    if JoinsNext(fl, t, b) then Blk(b.at, b.len + fl[t + 1].len) else b
  }

  /** Index in fl of the first block that an insertion after t leaves alone. */
  function After(fl: seq<Blk>, t: nat, b: Blk): nat {
    if JoinsNext(fl, t, b) then t + 2 else t + 1
  }

  /** free's result: b linked in after block t, merged with the neighbours it touches. */
  function Insert(fl: seq<Blk>, t: nat, b: Blk): seq<Blk>
    requires t < |fl|
  {
    var c := WithNext(fl, t, b);
    if JoinsPrev(fl, t, b) then fl[..t] + [Blk(fl[t].at, fl[t].len + c.len)] + fl[After(fl, t, b)..]
    else fl[..t + 1] + [c] + fl[After(fl, t, b)..]
  }

  /** The position of the block that contains b after the insertion. */
  function Home(fl: seq<Blk>, t: nat, b: Blk): nat {
    if JoinsPrev(fl, t, b) then t else t + 1
  }

  lemma InsertShape(fl: seq<Blk>, t: nat, b: Blk)
    requires t < |fl|
    ensures var r, q, a := Insert(fl, t, b), Home(fl, t, b), After(fl, t, b);
            && q < |r| && |r| - q - 1 == |fl| - a
            && r[q].End() == WithNext(fl, t, b).End()
            && r[q].at == (if JoinsPrev(fl, t, b) then fl[t].at else b.at)
            && r[t].at == fl[t].at && r[0].at == fl[0].at && (q > t ==> r[t] == fl[t])
  {
  }

  /** Every other block of the result is one of fl; Old says which. */
  lemma InsertElem(fl: seq<Blk>, t: nat, b: Blk, m: nat)
    requires t < |fl| && m < |Insert(fl, t, b)| && m != Home(fl, t, b)
    ensures Old(fl, t, b, m) < |fl| && Insert(fl, t, b)[m] == fl[Old(fl, t, b, m)]
    ensures m < Home(fl, t, b) ==> m <= t
    ensures m > Home(fl, t, b) ==> Old(fl, t, b, m) > t
  {
  }

  /** Index in fl of block m of the result, for any block but the one that contains b. */
  function Old(fl: seq<Blk>, t: nat, b: Blk, m: nat): nat {
    if m <= t then m else m - Home(fl, t, b) - 1 + After(fl, t, b)
  }

  /** malloc's result: n units taken from the end of block k, which disappears if they are all it has. */
  function Carve(fl: seq<Blk>, k: nat, n: int): seq<Blk>
    requires k < |fl|
  {
    if fl[k].len == n then fl[..k] + fl[k + 1..]
    else fl[k := Blk(fl[k].at, fl[k].len - n)]
  }

  /** t is where b goes: after every block below it. */
  ghost predicate Place(fl: seq<Blk>, t: nat, b: Blk) {
    && t < |fl| && b.len > 0
    && fl[t].End() <= b.at
    && (t + 1 < |fl| ==> b.End() <= fl[t + 1].at)
  }

  lemma InsertKeeps(fl: seq<Blk>, t: nat, b: Blk)
    requires Apart(fl) && Sized(fl) && Place(fl, t, b) && (t == 0 ==> fl[0].at < b.at)
    ensures Apart(Insert(fl, t, b)) && Sized(Insert(fl, t, b)) && Insert(fl, t, b)[0] == fl[0]
  {
    InsertShape(fl, t, b);
    var r, q, a := Insert(fl, t, b), Home(fl, t, b), After(fl, t, b);
    assert r[0] == fl[0];
    hide Insert;
    forall j, k | 0 <= j < k < |r|
      ensures r[j].End() < r[k].at
    {
      InsertOrder(fl, t, b, j, k);
    }
    forall k | 0 < k < |r|
      ensures r[k].len > 0
    {
      if k != q {
        InsertElem(fl, t, b, k);
      }
    }
  }

  lemma InsertOrder(fl: seq<Blk>, t: nat, b: Blk, j: nat, k: nat)
    requires Apart(fl) && Sized(fl) && Place(fl, t, b) && (t == 0 ==> fl[0].at < b.at) && j < k < |Insert(fl, t, b)|
    ensures Insert(fl, t, b)[j].End() < Insert(fl, t, b)[k].at
  {
    InsertShape(fl, t, b);
    var r, q, a := Insert(fl, t, b), Home(fl, t, b), After(fl, t, b);
    hide Insert;
    if j != q {
      InsertElem(fl, t, b, j);
    }
    if k != q {
      InsertElem(fl, t, b, k);
    }
    if j == q {
      var o := Old(fl, t, b, k);
      assert fl[t].End() < fl[o].at;
      assert t + 1 < o ==> fl[t + 1].End() < fl[o].at;
    } else if k == q {
      assert j < t ==> fl[j].End() < fl[t].at;
    } else {
      assert fl[Old(fl, t, b, j)].End() < fl[Old(fl, t, b, k)].at;
    }
  }

  lemma InsertLosesNone(fl: seq<Blk>, t: nat, b: Blk, u: int)
    requires Sized(fl) && Place(fl, t, b) && (InFree(fl, u) || b.at <= u < b.End())
    ensures InFree(Insert(fl, t, b), u)
  {
    InsertShape(fl, t, b);
    hide Insert;
    var r, q, a := Insert(fl, t, b), Home(fl, t, b), After(fl, t, b);
    if b.at <= u < b.End() {
      assert r[q].at <= u < r[q].End();
    } else {
      var k :| 0 <= k < |fl| && fl[k].at <= u < fl[k].End();
      if k < q {
        InsertElem(fl, t, b, k);
      } else if k < a {
        assert r[q].at <= u < r[q].End();
      } else {
        InsertElem(fl, t, b, k - a + q + 1);
        assert r[k - a + q + 1] == fl[k];
      }
    }
  }

  lemma InsertAddsNoMore(fl: seq<Blk>, t: nat, b: Blk, u: int)
    requires Sized(fl) && Place(fl, t, b) && InFree(Insert(fl, t, b), u) && !(b.at <= u < b.End())
    ensures InFree(fl, u)
  {
    InsertShape(fl, t, b);
    hide Insert;
    var r, q, a := Insert(fl, t, b), Home(fl, t, b), After(fl, t, b);
    var m :| 0 <= m < |r| && r[m].at <= u < r[m].End();
    if m != q {
      InsertElem(fl, t, b, m);
      assert fl[Old(fl, t, b, m)] == r[m];
    } else if u < b.at {
      assert fl[t].at <= u < fl[t].End();
    } else {
      assert fl[t + 1].at <= u < fl[t + 1].End();
    }
  }

  /** Freeing b adds exactly b's units to the free ones. */
  lemma InsertUnits(fl: seq<Blk>, t: nat, b: Blk, u: int)
    requires Apart(fl) && Sized(fl) && Place(fl, t, b)
    ensures InFree(Insert(fl, t, b), u) <==> InFree(fl, u) || b.at <= u < b.End()
  {
    hide Insert, InFree;
    if InFree(fl, u) || b.at <= u < b.End() {
      InsertLosesNone(fl, t, b, u);
    } else if InFree(Insert(fl, t, b), u) {
      InsertAddsNoMore(fl, t, b, u);
    }
  }

  lemma CarveKeeps(fl: seq<Blk>, k: nat, n: int)
    requires Apart(fl) && Sized(fl) && k < |fl| && 0 < n <= fl[k].len
    ensures Apart(Carve(fl, k, n)) && Sized(Carve(fl, k, n)) && Carve(fl, k, n)[0] == fl[0]
  {
  }

  /** Allocating takes exactly the n units at the end of block k. */
  lemma CarveUnits(fl: seq<Blk>, k: nat, n: int, u: int)
    requires Apart(fl) && k < |fl| && 0 < n <= fl[k].len
    ensures InFree(Carve(fl, k, n), u) <==> InFree(fl, u) && !(fl[k].End() - n <= u < fl[k].End())
  {
    var r := Carve(fl, k, n);
    if InFree(fl, u) && !(fl[k].End() - n <= u < fl[k].End()) {
      var j :| 0 <= j < |fl| && fl[j].at <= u < fl[j].End();
      if fl[k].len == n && j > k {
        assert r[j - 1] == fl[j];
      } else {
        assert r[j].at <= u < r[j].End();
      }
    }
    if InFree(r, u) {
      var m :| 0 <= m < |r| && r[m].at <= u < r[m].End();
      if fl[k].len == n && m >= k {
        assert r[m] == fl[m + 1];
      } else {
        assert fl[m].at <= u < fl[m].End();
      }
    }
  }

  // ----- the list in memory

  /** Block k of a linked list, and the block after it. */
  ghost predicate LinkedAt(fl: seq<Blk>, ptr: map<int, int>, size: map<int, int>, k: nat)
    requires k < |fl|
  {
    && fl[k].at in ptr && fl[k].at in size
    && size[fl[k].at] == fl[k].len
    && ptr[fl[k].at] == fl[Next(k, |fl|)].at
  }

  /** The headers of the blocks of fl hold their sizes and point around the circle. */
  ghost predicate Linked(fl: seq<Blk>, ptr: map<int, int>, size: map<int, int>) {
    forall k :: 0 <= k < |fl| ==> LinkedAt(fl, ptr, size, k)
  }

  /** The last block below address bp. */
  ghost function PlaceOf(fl: seq<Blk>, bp: int, n: nat): (t: nat)
    requires 0 < n <= |fl| && fl[0].at < bp
    ensures t < n && fl[t].at < bp
    ensures n < |fl| ==> t == n - 1 || fl[t + 1].at >= bp
    ensures n == |fl| ==> t + 1 == |fl| || fl[t + 1].at >= bp
  {
    if fl[n - 1].at < bp then n - 1 else PlaceOf(fl, bp, n - 1)
  }

  /** Steps from index k forward around the circle to index t. */
  function Dist(k: nat, t: nat, n: nat): nat
    requires k < n && t < n
  {
    if k <= t then t - k else t + n - k
  }

  /** A live block has a place in the free list. */
  lemma LiveHasPlace(fl: seq<Blk>, live: map<int, int>, bp: int)
    requires Apart(fl) && Sized(fl) && Disjoint(fl, live) && bp in live && live[bp] > 0 && fl[0].at < bp
    ensures Place(fl, PlaceOf(fl, bp, |fl|), Blk(bp, live[bp]))
  {
    var t := PlaceOf(fl, bp, |fl|);
    assert fl[t].End() <= bp;
    if t + 1 < |fl| {
      assert fl[t + 1].End() <= bp || bp + live[bp] <= fl[t + 1].at;
    }
  }

  /** free's search test at block k succeeds exactly at the block's place. */
  lemma SearchTest(fl: seq<Blk>, k: nat, bp: int)
    requires Apart(fl) && Sized(fl) && k < |fl| && fl[0].at < bp
    requires forall j :: 0 <= j < |fl| ==> fl[j].at != bp
    ensures var p, nxt, t := fl[k].at, fl[Next(k, |fl|)].at, PlaceOf(fl, bp, |fl|);
            ((bp > p && bp < nxt) || (p >= nxt && (bp > p || bp < nxt))) <==> k == t
  {
    var t := PlaceOf(fl, bp, |fl|);
    if k < t {
      assert fl[k].End() < fl[t].at;
      assert k + 1 == t || fl[k + 1].End() < fl[t].at;
    } else if k > t {
      assert t + 1 == k || fl[t + 1].End() < fl[k].at;
      assert k + 1 == |fl| || fl[k].End() < fl[k + 1].at;
      assert fl[0].End() < fl[k].at;
    } else if k + 1 == |fl| && k > 0 {
      assert fl[0].End() < fl[k].at;
    }
  }

  /** The headers after free's relinking code, for bp to be put after p. */
  function RelinkPtr(ptr: map<int, int>, size: map<int, int>, p: int, bp: int): map<int, int>
    requires p in ptr && p in size && bp in size && ptr[p] in ptr && ptr[p] in size
  {
    var nxt := ptr[p];
    var mid := ptr[bp := if bp + size[bp] == nxt then ptr[nxt] else nxt];
    mid[p := if p + size[p] == bp then mid[bp] else bp]
  }

  function RelinkSize(ptr: map<int, int>, size: map<int, int>, p: int, bp: int): map<int, int>
    requires p in ptr && p in size && bp in size && ptr[p] in ptr && ptr[p] in size
  {
    var nxt := ptr[p];
    var mid := size[bp := if bp + size[bp] == nxt then size[bp] + size[nxt] else size[bp]];
    mid[p := if p + size[p] == bp then mid[p] + mid[bp] else mid[p]]
  }

  ghost predicate Relinkable(fl: seq<Blk>, t: nat, b: Blk, ptr: map<int, int>, size: map<int, int>) {
    && Apart(fl) && Sized(fl) && Place(fl, t, b) && fl[0].at < b.at && Linked(fl, ptr, size)
    && b.at in size && size[b.at] == b.len && (forall j :: 0 <= j < |fl| ==> fl[j].at != b.at)
    && fl[t].at in ptr && fl[t].at in size && ptr[fl[t].at] == fl[Next(t, |fl|)].at && ptr[fl[t].at] in ptr
       && ptr[fl[t].at] in size
  }

  /** The block after which b goes. */
  lemma RelinkPrev(fl: seq<Blk>, t: nat, b: Blk, ptr: map<int, int>, size: map<int, int>)
    requires Relinkable(fl, t, b, ptr, size)
    ensures var r := Insert(fl, t, b);
            t < |r| && LinkedAt(r, RelinkPtr(ptr, size, fl[t].at, b.at), RelinkSize(ptr, size, fl[t].at, b.at), t)
  {
    InsertShape(fl, t, b);
    hide Insert;
    assert LinkedAt(fl, ptr, size, t) && LinkedAt(fl, ptr, size, Next(t, |fl|));
  }

  /** The inserted block, when it stays separate from the one before. */
  lemma RelinkNew(fl: seq<Blk>, t: nat, b: Blk, ptr: map<int, int>, size: map<int, int>)
    requires Relinkable(fl, t, b, ptr, size) && !JoinsPrev(fl, t, b)
    ensures var r := Insert(fl, t, b);
            t + 1 < |r| && LinkedAt(r, RelinkPtr(ptr, size, fl[t].at, b.at), RelinkSize(ptr, size, fl[t].at, b.at),
                                    t + 1)
  {
    InsertShape(fl, t, b);
    hide Insert;
    assert LinkedAt(fl, ptr, size, t) && LinkedAt(fl, ptr, size, Next(t, |fl|));
  }

  /** Every other block keeps its header; the one before p still points to p. */
  lemma RelinkBefore(fl: seq<Blk>, t: nat, b: Blk, ptr: map<int, int>, size: map<int, int>, m: nat)
    requires Relinkable(fl, t, b, ptr, size) && m < t
    ensures m < |Insert(fl, t, b)|
    ensures LinkedAt(Insert(fl, t, b), RelinkPtr(ptr, size, fl[t].at, b.at), RelinkSize(ptr, size, fl[t].at, b.at), m)
  {
    InsertShape(fl, t, b);
    InsertElem(fl, t, b, m);
    if m + 1 < t {
      InsertElem(fl, t, b, m + 1);
    }
    hide Insert, Sized;
    assert LinkedAt(fl, ptr, size, m);
    assert fl[m].End() < fl[t].at && fl[m + 1] == fl[Next(m, |fl|)];
  }

  lemma RelinkFrame(ptr: map<int, int>, size: map<int, int>, p: int, bp: int, x: int)
    requires p in ptr && p in size && bp in size && ptr[p] in ptr && ptr[p] in size
    requires x != p && x != bp && x in ptr && x in size
    ensures x in RelinkPtr(ptr, size, p, bp) && RelinkPtr(ptr, size, p, bp)[x] == ptr[x]
    ensures x in RelinkSize(ptr, size, p, bp) && RelinkSize(ptr, size, p, bp)[x] == size[x]
  {
  }

  /** Blocks past the inserted one, and their successors, are those of the old list. */
  lemma InsertTail(fl: seq<Blk>, t: nat, b: Blk, m: nat) returns (k: nat)
    requires Apart(fl) && Sized(fl) && Place(fl, t, b) && (t == 0 ==> fl[0].at < b.at)
    requires Home(fl, t, b) < m < |Insert(fl, t, b)|
    ensures t < k < |fl|
    ensures var r := Insert(fl, t, b); r[m] == fl[k] && r[Next(m, |r|)].at == fl[Next(k, |fl|)].at
  {
    InsertShape(fl, t, b);
    InsertKeeps(fl, t, b);
    InsertElem(fl, t, b, m);
    if m + 1 < |Insert(fl, t, b)| {
      InsertElem(fl, t, b, m + 1);
    }
    hide Insert, Sized, Apart;
    k := Old(fl, t, b, m);
  }

  lemma RelinkAfter(fl: seq<Blk>, t: nat, b: Blk, ptr: map<int, int>, size: map<int, int>, m: nat)
    requires Relinkable(fl, t, b, ptr, size) && Home(fl, t, b) < m < |Insert(fl, t, b)|
    ensures LinkedAt(Insert(fl, t, b), RelinkPtr(ptr, size, fl[t].at, b.at), RelinkSize(ptr, size, fl[t].at, b.at), m)
  {
    hide Insert, Apart, RelinkPtr, RelinkSize, Home;
    var k := InsertTail(fl, t, b, m);
    ApartDistinct(fl, t, k);
    assert LinkedAt(fl, ptr, size, k);
    RelinkFrame(ptr, size, fl[t].at, b.at, fl[k].at);
  }

  lemma ApartDistinct(fl: seq<Blk>, j: nat, k: nat)
    requires Apart(fl) && Sized(fl) && j < k < |fl|
    ensures fl[j].at < fl[k].at
  {
  }

  /** free's relinking turns a linked list into the linked list with the block inserted. */
  lemma RelinkInserts(fl: seq<Blk>, t: nat, b: Blk, ptr: map<int, int>, size: map<int, int>)
    requires Relinkable(fl, t, b, ptr, size)
    ensures Linked(Insert(fl, t, b), RelinkPtr(ptr, size, fl[t].at, b.at), RelinkSize(ptr, size, fl[t].at, b.at))
  {
    hide Insert, RelinkPtr, RelinkSize;
    var r := Insert(fl, t, b);
    var ptr', size' := RelinkPtr(ptr, size, fl[t].at, b.at), RelinkSize(ptr, size, fl[t].at, b.at);
    forall m | 0 <= m < |r|
      ensures LinkedAt(r, ptr', size', m)
    {
      if m == t {
        RelinkPrev(fl, t, b, ptr, size);
      } else if m == t + 1 && !JoinsPrev(fl, t, b) {
        RelinkNew(fl, t, b, ptr, size);
      } else if m < t {
        RelinkBefore(fl, t, b, ptr, size, m);
      } else {
        RelinkAfter(fl, t, b, ptr, size, m);
      }
    }
  }

  // ----- free list, live blocks and the memory obtained

  /**
   The heap's invariant: the free list starts at base, is sorted and coalesced; live blocks
   are nonempty and above base; everything lies below brk; and free and live blocks tile
   the units obtained, with no overlap and no unit lost.
   */
  ghost predicate HeapOk(fl: seq<Blk>, live: map<int, int>, got: set<int>, base: int, brk: int) {
    && Sized(fl) && Apart(fl) && fl[0].at == base < brk
    && (forall k :: 0 <= k < |fl| ==> fl[k].End() <= brk)
    && (forall a :: a in live ==> base < a && live[a] > 0 && a + live[a] <= brk)
    && Disjoint(fl, live)
    && Tiles(fl, live, got)
  }

  /** No overlap: a unit is in at most one free block, at most one live block, and not in both. */
  lemma ExactlyOneBlock(fl: seq<Blk>, live: map<int, int>, got: set<int>, base: int, brk: int, u: int)
    requires HeapOk(fl, live, got, base, brk)
    ensures u in got <==> (InFree(fl, u) != InLive(live, u))
    ensures forall j, k ::
              0 <= j < |fl| && 0 <= k < |fl| && fl[j].at <= u < fl[j].End() && fl[k].at <= u < fl[k].End() ==> j == k
    ensures forall a, b :: a in live && b in live && a <= u < a + live[a] && b <= u < b + live[b] ==> a == b
  {
    forall k, a | 0 <= k < |fl| && fl[k].at <= u < fl[k].End() && a in live
      ensures !(a <= u < a + live[a])
    {
      assert fl[k].End() <= a || a + live[a] <= fl[k].at;
    }
  }

  /** The units [a, a + n). */
  function Span(a: int, n: nat): (r: set<int>)
    ensures forall u :: u in r <==> a <= u < a + n
  {
    if n == 0 then {} else Span(a, n - 1) + {a + n - 1}
  }

  lemma LiveWithout(live: map<int, int>, a: int, u: int)
    requires a in live && forall b, c :: b in live && c in live && b < c ==> b + live[b] <= c
    requires forall b :: b in live ==> live[b] > 0
    ensures InLive(live - {a}, u) <==> InLive(live, u) && !(a <= u < a + live[a])
  {
    if InLive(live, u) && !(a <= u < a + live[a]) {
      var b :| b in live && b <= u < b + live[b];
      assert b in live - {a};
    }
    if InLive(live - {a}, u) {
      var b :| b in live - {a} && b <= u < b + (live - {a})[b];
      assert b in live;
    }
  }

  lemma LiveWith(live: map<int, int>, a: int, n: int, u: int)
    requires a !in live
    ensures InLive(live[a := n], u) <==> InLive(live, u) || a <= u < a + n
  {
    var more := live[a := n];
    if InLive(live, u) {
      var b :| b in live && b <= u < b + live[b];
      assert b in more && more[b] == live[b];
    }
    if a <= u < a + n {
      assert a in more;
    }
  }

  /** free keeps the invariant and obtains or loses no memory. */
  lemma FreeKeeps(fl: seq<Blk>, live: map<int, int>, got: set<int>, base: int, brk: int, bp: int)
    requires HeapOk(fl, live, got, base, brk) && bp in live
    ensures var t := PlaceOf(fl, bp, |fl|);
            HeapOk(Insert(fl, t, Blk(bp, live[bp])), live - {bp}, got, base, brk)
  {
    var t := PlaceOf(fl, bp, |fl|);
    var b := Blk(bp, live[bp]);
    LiveHasPlace(fl, live, bp);
    InsertKeeps(fl, t, b);
    InsertBounds(fl, live, base, brk, t, b);
    forall u
      ensures u in got <==> InFree(Insert(fl, t, b), u) || InLive(live - {bp}, u)
    {
      hide Insert, InFree, InLive;
      InsertUnits(fl, t, b, u);
      LiveWithout(live, bp, u);
    }
  }

  lemma InsertBounds(fl: seq<Blk>, live: map<int, int>, base: int, brk: int, t: nat, b: Blk)
    requires Apart(fl) && Sized(fl) && Disjoint(fl, live) && Place(fl, t, b) && b.at in live && live[b.at] == b.len
    requires forall k :: 0 <= k < |fl| ==> fl[k].End() <= brk
    requires forall a :: a in live ==> live[a] > 0
    requires b.End() <= brk
    ensures forall k :: 0 <= k < |Insert(fl, t, b)| ==> Insert(fl, t, b)[k].End() <= brk
    ensures Disjoint(Insert(fl, t, b), live - {b.at})
  {
    InsertShape(fl, t, b);
    hide Insert, Apart;
    var r, q, a := Insert(fl, t, b), Home(fl, t, b), After(fl, t, b);
    forall k | 0 <= k < |r|
      ensures r[k].End() <= brk
    {
      if k != q {
        InsertElem(fl, t, b, k);
      }
    }
    forall m, x | 0 <= m < |r| && x in live - {b.at}
      ensures r[m].End() <= x || x + live[x] <= r[m].at
    {
      assert b.End() <= x || x + live[x] <= b.at;
      if m != q {
        InsertElem(fl, t, b, m);
        var o := Old(fl, t, b, m);
        assert fl[o].End() <= x || x + live[x] <= fl[o].at;
      } else {
        assert fl[t].End() <= x || x + live[x] <= fl[t].at;
        assert JoinsNext(fl, t, b) ==> fl[t + 1].End() <= x || x + live[x] <= fl[t + 1].at;
      }
    }
  }

  /** malloc keeps the invariant: the block it hands out was free and overlaps nothing live. */
  lemma CarveHeap(fl: seq<Blk>, live: map<int, int>, got: set<int>, base: int, brk: int, k: nat, n: int)
    requires HeapOk(fl, live, got, base, brk) && k < |fl| && 0 < n <= fl[k].len
    ensures fl[k].End() - n !in live
    ensures HeapOk(Carve(fl, k, n), live[fl[k].End() - n := n], got, base, brk)
  {
    var a := fl[k].End() - n;
    assert k > 0 && fl[0].End() < fl[k].at;
    CarveKeeps(fl, k, n);
    CarveBounds(fl, live, base, brk, k, n);
    forall u
      ensures u in got <==> InFree(Carve(fl, k, n), u) || InLive(live[a := n], u)
    {
      CarveUnits(fl, k, n, u);
      LiveWith(live, a, n, u);
      if a <= u < a + n {
        assert InFree(fl, u);
      }
    }
  }

  lemma CarveBounds(fl: seq<Blk>, live: map<int, int>, base: int, brk: int, k: nat, n: int)
    requires Apart(fl) && Sized(fl) && Disjoint(fl, live) && k < |fl| && 0 < n <= fl[k].len
    requires forall j :: 0 <= j < |fl| ==> fl[j].End() <= brk
    requires forall a :: a in live ==> live[a] > 0
    ensures fl[k].End() - n !in live
    ensures forall j :: 0 <= j < |Carve(fl, k, n)| ==> Carve(fl, k, n)[j].End() <= brk
    ensures Disjoint(Carve(fl, k, n), live[fl[k].End() - n := n])
  {
    var a := fl[k].End() - n;
    var r := Carve(fl, k, n);
    assert forall x :: x in live ==> fl[k].End() <= x || x + live[x] <= fl[k].at;
    var more := live[a := n];
    forall m, x | 0 <= m < |r| && x in more
      ensures r[m].End() <= x || x + more[x] <= r[m].at
    {
      var j := if fl[k].len == n && m >= k then m + 1 else m;
      assert r[m].at == fl[j].at && r[m].End() <= fl[j].End();
      if x == a {
        assert j < k ==> fl[j].End() < fl[k].at;
        assert j > k ==> fl[k].End() < fl[j].at;
      } else {
        assert fl[j].End() <= x || x + live[x] <= fl[j].at;
      }
    }
  }

  /** sbrk hands out n fresh units at a: they become one live block. */
  lemma GrowKeeps(fl: seq<Blk>, live: map<int, int>, got: set<int>, base: int, brk: int, a: int, n: nat)
    requires HeapOk(fl, live, got, base, brk) && brk <= a && n > 0
    ensures a !in live
    ensures HeapOk(fl, live[a := n], got + Span(a, n), base, a + n)
  {
    var more := got + Span(a, n);
    forall u
      ensures u in more <==> InFree(fl, u) || InLive(live[a := n], u)
    {
      LiveWith(live, a, n, u);
    }
  }

  /** The headers in memory carry the free list and the sizes of live blocks; freep is on the list. */
  ghost predicate Consistent(fl: seq<Blk>, live: map<int, int>, got: set<int>, base: int, brk: int,
                             ptr: map<int, int>, size: map<int, int>, freep: int)
  {
    && HeapOk(fl, live, got, base, brk) && Linked(fl, ptr, size)
    && (forall a :: a in live ==> a in size && size[a] == live[a])
    && exists k :: 0 <= k < |fl| && fl[k].at == freep
  }

  const MIN_UNITS: int := 4096

  /** What sbrk answers: whether it succeeds, and how far past the current break the memory starts. */
  datatype Sbrk = Sbrk(ok: bool, gap: nat)

  class Heap {
    const base: int                // address of the static header base
    var freep: int                 // 0 until the first malloc
    var ptr: map<int, int>         // s.ptr of each header
    var size: map<int, int>        // s.size of each header
    var brk: int
    ghost var fl: seq<Blk>
    ghost var live: map<int, int>
    ghost var got: set<int>

    ghost predicate Valid()
      reads this
    {
      && 0 < base < brk
      && if freep == 0 then fl == [] && live == map[] && got == {}
         else Consistent(fl, live, got, base, brk, ptr, size, freep)
    }

    constructor (base: int, brk: int)
      requires 0 < base < brk
      ensures Valid() && live == map[] && got == {}
    {
      this.base, this.brk := base, brk;
      freep, ptr, size := 0, map[], map[];
      fl, live, got := [], map[], {};
    }

    /**
     free(ap) for a block that malloc returned and that is still live: the block becomes
     free, merged with its free neighbours; its search ends at the block's one place in the
     list; no other live block changes.
     */
    method Free(ap: int) returns (ghost t: nat)
      requires Valid() && freep != 0 && ap - 1 in live
      modifies this`freep, this`ptr, this`size, this`fl, this`live
      ensures Valid() && freep != 0 && got == old(got)
      ensures live == old(live) - {ap - 1}
      ensures t < |old(fl)| && t < |fl| && freep == fl[t].at
      ensures fl == Insert(old(fl), t, Blk(ap - 1, old(live)[ap - 1]))
              && Place(old(fl), t, Blk(ap - 1, old(live)[ap - 1]))
    {
      hide Insert, Consistent, Place, PlaceOf, RelinkPtr, RelinkSize, Relinkable;
      var bp := ap - 1;
      ghost var b := Blk(bp, live[bp]);
      ghost var k: nat := FreeSetup(fl, live, got, base, brk, ptr, size, freep, bp);
      t := PlaceOf(fl, bp, |fl|);
      var p := freep;
      FreeSearch(fl, live, got, base, brk, ptr, size, freep, bp, k);
      while !(bp > p && bp < ptr[p]) && !(p >= ptr[p] && (bp > p || bp < ptr[p]))
        invariant unchanged(this)
        invariant k < |fl| && fl[k].at == p && p in ptr && ptr[p] == fl[Next(k, |fl|)].at
        invariant ((bp > p && bp < ptr[p]) || (p >= ptr[p] && (bp > p || bp < ptr[p]))) <==> k == t
        decreases Dist(k, t, |fl|)
      {
        p := ptr[p];
        k := Next(k, |fl|);
        FreeSearch(fl, live, got, base, brk, ptr, size, freep, bp, k);
      }
      ghost var ptr0, size0 := ptr, size;
      FreeRelinks(fl, live, got, base, brk, ptr, size, freep, bp);
      var nxt := ptr[p];
      if bp + size[bp] == nxt {
        ptr := ptr[bp := ptr[nxt]];
        size := size[bp := size[bp] + size[nxt]];
      } else {
        ptr := ptr[bp := nxt];
      }
      if p + size[p] == bp {
        size := size[p := size[p] + size[bp]];
        ptr := ptr[p := ptr[bp]];
      } else {
        ptr := ptr[p := bp];
      }
      RelinkDone(ptr0, size0, p, bp, ptr, size);
      freep := p;
      fl := Insert(fl, t, b);
      live := live - {bp};
    }

    /** morecore: at least MIN_UNITS units from sbrk, put on the free list. Returns 0 if sbrk fails. */
    method Morecore(nu: int, env: Sbrk) returns (r: int, ghost t: nat, ghost q: nat, ghost n: nat)
      requires Valid() && freep != 0 && nu > 0
      modifies this
      ensures Valid() && freep != 0 && live == old(live)
      ensures r == if env.ok then freep else 0
      ensures !env.ok ==> unchanged(this)
      ensures env.ok ==> n == CoreUnits(nu) && brk == old(brk) + env.gap + n
      ensures env.ok ==> got == old(got) + Span(old(brk) + env.gap, n)
      ensures env.ok ==> t < |fl| && freep == fl[t].at && q < |fl| && (q == t || q == t + 1) && fl[q].len >= nu
    {
      hide Consistent, Span;
      var units: nat := CoreUnits(nu);
      t, q, n := 0, 0, units;
      if !env.ok {
        return 0, 0, 0, 0;
      }
      var a := brk + env.gap;
      t, q := AddCore(a, units);
      r := freep;
    }

    /** The part of morecore after sbrk returned a: write the header and free the new block. */
    method AddCore(a: int, units: nat) returns (ghost t: nat, ghost q: nat)
      requires Valid() && freep != 0 && brk <= a && units > 0
      modifies this
      ensures Valid() && freep != 0 && live == old(live)
      ensures got == old(got) + Span(a, units) && brk == a + units
      ensures t < |fl| && freep == fl[t].at && q < |fl| && (q == t || q == t + 1) && fl[q].len >= units
    {
      hide Consistent, Insert, Place, Span, Home;
      GrowConsistent(fl, live, got, base, brk, ptr, size, freep, a, units);
      MapRestored(live, a, units);
      ghost var fl0 := fl;
      brk := a + units;
      size := size[a := units];
      live := live[a := units];
      got := got + Span(a, units);
      t := Free(a + 1);
      q := Home(fl0, t, Blk(a, units));
      InsertFits(fl0, t, Blk(a, units));
    }

    /** malloc's allocation from block p, which follows prevp and is large enough: its last nunits units. */
    method Take(prevp: int, p: int, nunits: int, ghost kp: nat) returns (r: int)
      requires Valid() && freep != 0 && kp < |fl| && fl[kp].at == prevp && fl[Next(kp, |fl|)].at == p
      requires 0 < nunits <= fl[Next(kp, |fl|)].len
      modifies this`freep, this`ptr, this`size, this`fl, this`live
      ensures Valid() && freep == prevp != 0 && r > 0 && r - 1 !in old(live) && live == old(live)[r - 1 := nunits]
      ensures var k := Next(kp, |old(fl)|); fl == Carve(old(fl), k, nunits) && r - 1 == old(fl)[k].End() - nunits
    {
      hide Consistent, Carve;
      TakeConsistent(fl, live, got, base, brk, ptr, size, freep, kp, nunits);
      var q := p;
      ghost var k := Next(kp, |fl|);
      live := live[fl[k].End() - nunits := nunits];
      fl := Carve(fl, k, nunits);
      if size[p] == nunits {
        ptr := ptr[prevp := ptr[p]];
      } else {
        size := size[p := size[p] - nunits];
        q := p + size[p];
        size := size[q := nunits];
      }
      freep := prevp;
      r := q + 1;
    }

    /**
     malloc: a block of enough units that was free and overlaps nothing live, cut from the end of
     the first block behind freep that is large enough (at). Only if none is, it asks sbrk for memory, once, and
     it fails only if sbrk does.
     */
    method Malloc(nbytes: nat, env: Sbrk) returns (r: int, ghost calls: nat, ghost n: nat, ghost at: nat)
      requires Valid() && nbytes < 0x7fff_ffd0
      modifies this
      ensures Valid() && freep != 0 && calls <= 1
      ensures r == 0 ==> calls == 1 && !env.ok && live == old(live)
                         && forall k :: 0 <= k < |fl| ==> fl[k].len < Units(nbytes)
      ensures r != 0 ==> r - 1 !in old(live) && live == old(live)[r - 1 := Units(nbytes)]
      ensures got == if calls == 1 && env.ok then old(got) + Span(old(brk) + env.gap, n) else old(got)
      ensures calls == 1 ==> forall k :: 0 <= k < |old(fl)| ==> old(fl)[k].len < Units(nbytes)
      ensures calls == 1 && env.ok ==> n == CoreUnits(Units(nbytes))
      ensures calls == 0 ==> FirstFit(old(fl), old(freep), at, Units(nbytes)) && fl == Carve(old(fl), at, Units(nbytes))
                             && r - 1 == old(fl)[at].End() - Units(nbytes)
    {
      hide Consistent, Span, Units, TooSmallUpTo, Dist, Carve;
      calls, n, at := 0, 0, 0;
      var nunits := Units(nbytes);
      if freep == 0 {
        InitConsistent(base, brk, ptr[base := base], size[base := 0]);
        ptr := ptr[base := base];
        freep := base;
        size := size[base := 0];
        fl := [Blk(base, 0)];
      }
      ghost var fl0, freep0 := fl, freep;
      var prevp := freep;
      ghost var f: nat := FreepIndex(fl, live, got, base, brk, ptr, size, freep);
      ghost var kp: nat := f;
      Neighbour(fl, live, got, base, brk, ptr, size, freep, kp);
      NothingVisited(fl, Next(f, |fl|), nunits);
      var p := ptr[prevp];
      while true
        invariant Valid() && freep != 0 && calls <= 1 && live == old(live)
        invariant got == if calls == 1 && env.ok then old(got) + Span(old(brk) + env.gap, n) else old(got)
        invariant calls == 1 ==> env.ok
        invariant calls == 0 ==> brk == old(brk) && fl == fl0 && freep == freep0
        invariant calls == 1 ==> forall k :: 0 <= k < |fl0| ==> fl0[k].len < nunits
        invariant calls == 1 ==> n == CoreUnits(nunits)
        invariant f < |fl| && fl[f].at == freep && kp < |fl| && fl[kp].at == prevp && p == fl[Next(kp, |fl|)].at
        invariant calls == 0 ==> TooSmallUpTo(fl, Next(f, |fl|), Next(kp, |fl|), nunits)
        invariant calls == 1 ==> fl[f].len >= nunits || fl[Next(kp, |fl|)].len >= nunits
        decreases 1 - calls, Dist(Next(kp, |fl|), f, |fl|)
      {
        ghost var k := Next(kp, |fl|);
        Neighbour(fl, live, got, base, brk, ptr, size, freep, k);
        if size[p] >= nunits {
          at := k;
          if calls == 0 {
            assert FirstFit(fl0, freep0, at, nunits);
          }
          r := Take(prevp, p, nunits, kp);
          return;
        }
        if p == freep {
          OneIndex(fl, live, got, base, brk, ptr, size, freep, k, f);
          assert calls == 0;
          calls := 1;
          AllTooSmall(fl, Next(k, |fl|), k, nunits);
          p, f, kp, n := Morecore(nunits, env);
          if p == 0 {
            return 0, calls, n, 0;
          }
          kp := f;
          Neighbour(fl, live, got, base, brk, ptr, size, freep, f);
        } else {
          VisitedOne(fl, Next(f, |fl|), k, f, nunits);
          kp := k;
        }
        prevp := p;
        p := ptr[p];
      }
    }
  }

  /** What morecore asks sbrk for. */
  function CoreUnits(nu: int): int {
    if nu < MIN_UNITS then MIN_UNITS else nu
  }

  /** Of the blocks from the one behind freep on, at is the first with n units. */
  ghost predicate FirstFit(fl: seq<Blk>, freep: int, at: nat, n: int) {
    && at < |fl| && fl[at].len >= n
    && exists f :: 0 <= f < |fl| && fl[f].at == freep && TooSmallUpTo(fl, Next(f, |fl|), at, n)
  }

  /** nunits of malloc: the payload rounded up to headers, plus one header. */
  function Units(nbytes: nat): (n: int)
    ensures n >= 1 && (n - 1) * 16 >= nbytes && (n - 2) * 16 < nbytes
  {
    (nbytes + 16 - 1) / 16 + 1
  }

  lemma InitConsistent(base: int, brk: int, ptr: map<int, int>, size: map<int, int>)
    requires 0 < base < brk && base in ptr && base in size && ptr[base] == base && size[base] == 0
    ensures Consistent([Blk(base, 0)], map[], {}, base, brk, ptr, size, base)
  {
    var fl := [Blk(base, 0)];
    assert fl[0].at == base;
    assert LinkedAt(fl, ptr, size, 0);
  }

  lemma FreepIndex(fl: seq<Blk>, live: map<int, int>, got: set<int>, base: int, brk: int,
                   ptr: map<int, int>, size: map<int, int>, freep: int) returns (k: nat)
    requires Consistent(fl, live, got, base, brk, ptr, size, freep)
    ensures k < |fl| && fl[k].at == freep
  {
    k :| 0 <= k < |fl| && fl[k].at == freep;
  }

  lemma Neighbour(fl: seq<Blk>, live: map<int, int>, got: set<int>, base: int, brk: int,
                  ptr: map<int, int>, size: map<int, int>, freep: int, k: nat)
    requires Consistent(fl, live, got, base, brk, ptr, size, freep) && k < |fl|
    ensures fl[k].at in ptr && fl[k].at in size && size[fl[k].at] == fl[k].len && ptr[fl[k].at] == fl[Next(k, |fl|)].at
  {
    assert LinkedAt(fl, ptr, size, k);
  }

  lemma OneIndex(fl: seq<Blk>, live: map<int, int>, got: set<int>, base: int, brk: int,
                 ptr: map<int, int>, size: map<int, int>, freep: int, j: nat, k: nat)
    requires Consistent(fl, live, got, base, brk, ptr, size, freep) && j < |fl| && k < |fl| && fl[j].at == fl[k].at
    ensures j == k
  {
    if j < k {
      ApartDistinct(fl, j, k);
    } else if k < j {
      ApartDistinct(fl, k, j);
    }
  }

  /** Going around from index s, every block before index k is too small. */
  ghost predicate TooSmallUpTo(fl: seq<Blk>, s: nat, k: nat, n: int)
    requires s < |fl| && k < |fl|
  {
    forall j :: 0 <= j < |fl| && Dist(s, j, |fl|) < Dist(s, k, |fl|) ==> fl[j].len < n
  }

  lemma NothingVisited(fl: seq<Blk>, s: nat, n: int)
    requires s < |fl|
    ensures TooSmallUpTo(fl, s, s, n)
  {
  }

  lemma VisitedOne(fl: seq<Blk>, s: nat, k: nat, f: nat, n: int)
    requires s < |fl| && k < |fl| && f < |fl| && s == Next(f, |fl|) && k != f && fl[k].len < n
    ensures TooSmallUpTo(fl, s, k, n) ==> TooSmallUpTo(fl, s, Next(k, |fl|), n)
    ensures Dist(Next(k, |fl|), f, |fl|) < Dist(k, f, |fl|)
  {
  }

  lemma AllTooSmall(fl: seq<Blk>, s: nat, k: nat, n: int)
    requires s < |fl| && k < |fl| && s == Next(k, |fl|) && TooSmallUpTo(fl, s, k, n) && fl[k].len < n
    ensures forall j :: 0 <= j < |fl| ==> fl[j].len < n
  {
    forall j | 0 <= j < |fl|
      ensures fl[j].len < n
    {
      assert j != k ==> Dist(s, j, |fl|) < Dist(s, k, |fl|);
    }
  }

  /** malloc's update of the headers when block after kp is large enough. */
  lemma TakeConsistent(fl: seq<Blk>, live: map<int, int>, got: set<int>, base: int, brk: int,
                       ptr: map<int, int>, size: map<int, int>, freep: int, kp: nat, n: int)
    requires Consistent(fl, live, got, base, brk, ptr, size, freep)
    requires kp < |fl| && 0 < n <= fl[Next(kp, |fl|)].len
    ensures var k := Next(kp, |fl|);
            var p, prevp, a := fl[k].at, fl[kp].at, fl[k].End() - n;
            && p in ptr && p in size && size[p] == fl[k].len && a !in live && prevp >= base && a >= base
            && (if fl[k].len == n
                then Consistent(Carve(fl, k, n), live[a := n], got, base, brk, ptr[prevp := ptr[p]], size, prevp)
                else Consistent(Carve(fl, k, n), live[a := n], got, base, brk, ptr, size[p := fl[k].len - n][a := n],
                                prevp))
  {
    hide HeapOk, Linked, Apart, Sized, Disjoint, Tiles;
    TakeFacts(fl, live, got, base, brk, ptr, size, kp, n);
    var k := kp + 1;
    CarveHeap(fl, live, got, base, brk, k, n);
    assert Carve(fl, k, n)[kp].at == fl[kp].at;
    if fl[k].len == n {
      UnlinkWhole(fl, kp, ptr, size);
    } else {
      ShrinkLinked(fl, k, n, ptr, size);
    }
  }

  lemma TakeFacts(fl: seq<Blk>, live: map<int, int>, got: set<int>, base: int, brk: int,
                  ptr: map<int, int>, size: map<int, int>, kp: nat, n: int)
    requires HeapOk(fl, live, got, base, brk) && Linked(fl, ptr, size)
    requires kp < |fl| && 0 < n <= fl[Next(kp, |fl|)].len
    ensures Next(kp, |fl|) == kp + 1 && Apart(fl) && Sized(fl)
    ensures fl[kp + 1].at in ptr && fl[kp + 1].at in size && size[fl[kp + 1].at] == fl[kp + 1].len
    ensures fl[kp].at >= base && fl[kp + 1].at >= base
    ensures forall x :: x in live ==> x != fl[kp + 1].at
  {
    hide Tiles;
    var k := Next(kp, |fl|);
    assert LinkedAt(fl, ptr, size, k);
    assert kp > 0 ==> fl[0].End() < fl[kp].at;
    assert fl[0].End() < fl[k].at;
    forall x | x in live
      ensures x != fl[k].at
    {
      NotListed(fl, live, x);
    }
  }

  lemma UnlinkAt(fl: seq<Blk>, kp: nat, ptr: map<int, int>, size: map<int, int>, j: nat)
    requires Apart(fl) && Sized(fl) && Linked(fl, ptr, size) && kp + 1 < |fl| && j < |fl| && j != kp && j != kp + 1
    ensures fl[kp + 1].at in ptr && fl[j].at in ptr && fl[j].at in size && size[fl[j].at] == fl[j].len
    ensures ptr[fl[kp].at := ptr[fl[kp + 1].at]][fl[j].at] == fl[Next(j, |fl|)].at
  {
    assert LinkedAt(fl, ptr, size, kp + 1) && LinkedAt(fl, ptr, size, j);
    if j < kp {
      ApartDistinct(fl, j, kp);
    } else {
      ApartDistinct(fl, kp, j);
    }
  }

  /** Taking a whole block: its predecessor points past it. */
  lemma UnlinkWhole(fl: seq<Blk>, kp: nat, ptr: map<int, int>, size: map<int, int>)
    requires Apart(fl) && Sized(fl) && Linked(fl, ptr, size) && kp + 1 < |fl|
    ensures fl[kp + 1].at in ptr
    ensures Linked(fl[..kp + 1] + fl[kp + 2..], ptr[fl[kp].at := ptr[fl[kp + 1].at]], size)
  {
    hide Apart, Sized;
    var r := fl[..kp + 1] + fl[kp + 2..];
    assert LinkedAt(fl, ptr, size, kp) && LinkedAt(fl, ptr, size, kp + 1);
    var ptr' := ptr[fl[kp].at := ptr[fl[kp + 1].at]];
    forall m | 0 <= m < |r|
      ensures LinkedAt(r, ptr', size, m)
    {
      var j := if m <= kp then m else m + 1;
      assert r[m] == fl[j];
      var next := r[Next(m, |r|)];
      assert next == if m == kp then fl[Next(kp + 1, |fl|)] else fl[Next(j, |fl|)];
      if m != kp {
        UnlinkAt(fl, kp, ptr, size, j);
      }
    }
  }

  /** Taking the end of a block: only its size changes, and the new header lies outside every free block's header. */
  lemma ShrinkLinked(fl: seq<Blk>, k: nat, n: int, ptr: map<int, int>, size: map<int, int>)
    requires Apart(fl) && Sized(fl) && Linked(fl, ptr, size) && k < |fl| && 0 < n < fl[k].len
    ensures Linked(fl[k := Blk(fl[k].at, fl[k].len - n)], ptr, size[fl[k].at := fl[k].len - n][fl[k].End() - n := n])
  {
    var r := fl[k := Blk(fl[k].at, fl[k].len - n)];
    var a := fl[k].End() - n;
    var size' := size[fl[k].at := fl[k].len - n][a := n];
    forall m | 0 <= m < |r|
      ensures LinkedAt(r, ptr, size', m)
    {
      assert LinkedAt(fl, ptr, size, m);
      assert m < k ==> fl[m].End() < fl[k].at;
      assert m > k ==> fl[k].End() < fl[m].at;
    }
  }

  lemma MapRestored(m: map<int, int>, a: int, n: int)
    requires a !in m
    ensures m[a := n] - {a} == m
  {
  }

  lemma GrowConsistent(fl: seq<Blk>, live: map<int, int>, got: set<int>, base: int, brk: int,
                       ptr: map<int, int>, size: map<int, int>, freep: int, a: int, n: nat)
    requires Consistent(fl, live, got, base, brk, ptr, size, freep) && brk <= a && n > 0
    ensures a !in live && Sized(fl)
    ensures Consistent(fl, live[a := n], got + Span(a, n), base, a + n, ptr, size[a := n], freep)
  {
    GrowKeeps(fl, live, got, base, brk, a, n);
    LinkedFrame(fl, live, got, base, brk, a, n, ptr, size);
  }

  /** What free needs to know before it searches; k is where freep is. */
  lemma FreeSetup(fl: seq<Blk>, live: map<int, int>, got: set<int>, base: int, brk: int,
                  ptr: map<int, int>, size: map<int, int>, freep: int, bp: int) returns (k: nat)
    requires Consistent(fl, live, got, base, brk, ptr, size, freep) && bp in live
    ensures k < |fl| && fl[k].at == freep
    ensures bp in size && size[bp] == live[bp] && fl[0].at < bp
    ensures var t := PlaceOf(fl, bp, |fl|);
            && Place(fl, t, Blk(bp, live[bp])) && Relinkable(fl, t, Blk(bp, live[bp]), ptr, size)
            && base <= fl[t].at && fl[t].at != bp
  {
    hide Tiles;
    k :| 0 <= k < |fl| && fl[k].at == freep;
    LiveHasPlace(fl, live, bp);
    NotListed(fl, live, bp);
    var t := PlaceOf(fl, bp, |fl|);
    assert LinkedAt(fl, ptr, size, t) && LinkedAt(fl, ptr, size, Next(t, |fl|));
    assert t > 0 ==> fl[0].End() < fl[t].at;
  }

  /** free's search at block k: it knows the next block, and stops exactly at the place. */
  lemma FreeSearch(fl: seq<Blk>, live: map<int, int>, got: set<int>, base: int, brk: int,
                   ptr: map<int, int>, size: map<int, int>, freep: int, bp: int, k: nat)
    requires Consistent(fl, live, got, base, brk, ptr, size, freep) && bp in live && k < |fl|
    ensures fl[0].at < bp && fl[k].at in ptr && ptr[fl[k].at] == fl[Next(k, |fl|)].at
    ensures var p, nxt, t := fl[k].at, fl[Next(k, |fl|)].at, PlaceOf(fl, bp, |fl|);
            ((bp > p && bp < nxt) || (p >= nxt && (bp > p || bp < nxt))) <==> k == t
  {
    hide Tiles, PlaceOf;
    assert LinkedAt(fl, ptr, size, k);
    NotListed(fl, live, bp);
    SearchTest(fl, k, bp);
  }

  /** Relinking at the place found gives a consistent heap with the block free. */
  lemma FreeRelinks(fl: seq<Blk>, live: map<int, int>, got: set<int>, base: int, brk: int,
                    ptr: map<int, int>, size: map<int, int>, freep: int, bp: int)
    requires Consistent(fl, live, got, base, brk, ptr, size, freep) && bp in live
    ensures fl != [] && fl[0].at < bp && bp in size
    ensures var p := fl[PlaceOf(fl, bp, |fl|)].at;
            && p in ptr && p in size && ptr[p] in ptr && ptr[p] in size && p != bp && p > base - 1
            && var r := Insert(fl, PlaceOf(fl, bp, |fl|), Blk(bp, live[bp]));
            && Consistent(r, live - {bp}, got, base, brk, RelinkPtr(ptr, size, p, bp), RelinkSize(ptr, size, p, bp), p)
            && PlaceOf(fl, bp, |fl|) < |r| && r[PlaceOf(fl, bp, |fl|)].at == p
  {
    hide Insert, HeapOk, Linked, Place, RelinkPtr, RelinkSize, PlaceOf;
    var k := FreeSetup(fl, live, got, base, brk, ptr, size, freep, bp);
    var t := PlaceOf(fl, bp, |fl|);
    RelinkInserts(fl, t, Blk(bp, live[bp]), ptr, size);
    FreeKeeps(fl, live, got, base, brk, bp);
    InsertShape(fl, t, Blk(bp, live[bp]));
    RelinkLive(fl, live, ptr, size, got, base, brk, t, bp);
    assert Insert(fl, t, Blk(bp, live[bp]))[t].at == fl[t].at;
  }

  /** Relinking does not write the header of any other live block. */
  lemma RelinkLive(fl: seq<Blk>, live: map<int, int>, ptr: map<int, int>, size: map<int, int>, got: set<int>,
                   base: int, brk: int, t: nat, bp: int)
    requires HeapOk(fl, live, got, base, brk) && t < |fl| && bp in live && bp in size
    requires fl[t].at in ptr && fl[t].at in size && ptr[fl[t].at] in ptr && ptr[fl[t].at] in size
    requires forall a :: a in live ==> a in size && size[a] == live[a]
    ensures var size' := RelinkSize(ptr, size, fl[t].at, bp);
            forall a :: a in live - {bp} ==> a in size' && size'[a] == live[a]
  {
    hide Tiles;
    forall a | a in live
      ensures a != fl[t].at
    {
      NotListed(fl, live, a);
    }
  }

  /** Writing the header of a block above the break leaves the list as it was. */
  lemma LinkedFrame(fl: seq<Blk>, live: map<int, int>, got: set<int>, base: int, brk: int, a: int, n: int,
                    ptr: map<int, int>, size: map<int, int>)
    requires HeapOk(fl, live, got, base, brk) && brk <= a && Linked(fl, ptr, size)
    ensures Linked(fl, ptr, size[a := n])
  {
    hide Tiles, Disjoint;
    var size' := size[a := n];
    forall k | 0 <= k < |fl|
      ensures LinkedAt(fl, ptr, size', k)
    {
      assert LinkedAt(fl, ptr, size, k);
      assert fl[k].End() <= brk;
    }
  }

  /** The block that contains a freed block is at least as long. */
  lemma InsertFits(fl: seq<Blk>, t: nat, b: Blk)
    requires Sized(fl) && Place(fl, t, b)
    ensures Home(fl, t, b) < |Insert(fl, t, b)| && Insert(fl, t, b)[Home(fl, t, b)].len >= b.len
    ensures t <= Home(fl, t, b) <= t + 1
  {
    InsertShape(fl, t, b);
    hide Insert;
  }

  lemma NotListed(fl: seq<Blk>, live: map<int, int>, bp: int)
    requires Sized(fl) && Disjoint(fl, live) && bp in live && live[bp] > 0 && fl[0].at < bp
    ensures forall j :: 0 <= j < |fl| ==> fl[j].at != bp
  {
    forall j | 0 <= j < |fl|
      ensures fl[j].at != bp
    {
      assert fl[j].End() <= bp || bp + live[bp] <= fl[j].at;
    }
  }

  /** The relinking code, field by field, computes RelinkPtr and RelinkSize. */
  lemma RelinkDone(ptr: map<int, int>, size: map<int, int>, p: int, bp: int, ptr': map<int, int>, size': map<int, int>)
    requires p in ptr && p in size && bp in size && ptr[p] in ptr && ptr[p] in size && p != bp
    requires ptr' == (var mid := ptr[bp := if bp + size[bp] == ptr[p] then ptr[ptr[p]] else ptr[p]];
                      mid[p := if p + size[p] == bp then mid[bp] else bp])
    requires size' == (var mid := if bp + size[bp] == ptr[p] then size[bp := size[bp] + size[ptr[p]]] else size;
                       if p + size[p] == bp then mid[p := mid[p] + mid[bp]] else mid)
    ensures ptr' == RelinkPtr(ptr, size, p, bp) && size' == RelinkSize(ptr, size, p, bp)
  {
  }
}
