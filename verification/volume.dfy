/**
 kernel/fs.c's block and inode operations as the code performs them: in-place
 updates of cached blocks and in-memory inodes, with every log_write recorded.
 */
module Volume {
  import opened Blocks
  import opened Common
  import opened FileSystem

  // ----- specification helpers

  /** No block below the file's size is missing. */
  ghost predicate NoHoles(fs: Fs, i: nat) {
    i < |fs.inodes| && forall bn :: 0 <= bn < MAXFILE && bn * BSIZE < fs.inodes[i].size ==> Ref(fs, i, SlotFor(bn)) != 0
  }

  ghost predicate SizesOk(fs: Fs) {
    forall i :: 0 <= i < |fs.inodes| ==> fs.inodes[i].size <= MAXFILE * BSIZE
  }

  /** Blocks that bmap must allocate to map file block bn. */
  ghost function Need(fs: Fs, i: nat, bn: nat): nat
    requires i < |fs.inodes| && bn < MAXFILE
  {
    (if Ref(fs, i, SlotFor(bn)) == 0 then 1 else 0)
    + (if bn >= NDIRECT && fs.inodes[i].addrs[NDIRECT] == 0 then 1 else 0)
  }

  /** Slots in use in fs are the same in gs; only slots s and NDIRECT of inode i may have been filled. */
  ghost predicate OnlyFills(fs: Fs, gs: Fs, i: nat, s: nat) {
    && |gs.inodes| == |fs.inodes|
    && (forall j, t :: ValidSlot(fs, j, t) && Ref(fs, j, t) != 0 ==> Ref(gs, j, t) == Ref(fs, j, t))
    && (forall j, t :: ValidSlot(fs, j, t) && !(j == i && (t == s || t == NDIRECT)) ==> Ref(gs, j, t) == Ref(fs, j, t))
  }

  /** Inodes are untouched but for the block addresses of inode i. */
  ghost predicate OnlyAddrs(fs: Fs, gs: Fs, i: nat) {
    && |gs.inodes| == |fs.inodes|
    && forall j :: 0 <= j < |fs.inodes| ==>
         if j == i then gs.inodes[j].size == fs.inodes[j].size else gs.inodes[j] == fs.inodes[j]
  }

  /** Slot s of inode i now holds block b; no other slot and no file's contents changed. */
  ghost predicate Fills(sb: Super, fs: Fs, gs: Fs, i: nat, s: nat, b: nat) {
    && WellFormed(sb, fs) && WellFormed(sb, gs) && ValidSlot(fs, i, s) && 0 < b < sb.size
    && SameContents(sb, fs, gs) && OnlyAddrs(fs, gs, i)
    && forall j, t :: ValidSlot(fs, j, t) ==> Ref(gs, j, t) == if j == i && t == s then b else Ref(fs, j, t)
  }

  /** What a bmap that returned b may have done: filled in slots of inode i so that bn is mapped to b. */
  ghost predicate Maps(sb: Super, fs: Fs, gs: Fs, i: nat, bn: nat, b: nat) {
    && WellFormed(sb, fs) && WellFormed(sb, gs) && i < |fs.inodes| && bn < MAXFILE
    && 0 < b < sb.size && b == Ref(gs, i, SlotFor(bn))
    && SameContents(sb, fs, gs) && OnlyAddrs(fs, gs, i) && OnlyFills(fs, gs, i, SlotFor(bn))
  }

  // ----- reading and writing bytes

  /** memmove of src into a block at offset at. */
  function Overlay(b: Block, at: nat, src: seq<byte>): (r: Block)
    requires at + |src| <= BSIZE
    ensures forall k :: 0 <= k < BSIZE ==> r.bytes[k] == if at <= k < at + |src| then src[k - at] else b.bytes[k]
  {
    Block(b.bytes[..at] + src + b.bytes[at + |src|..])
  }

  /** min(n - tot, BSIZE - off%BSIZE): how much of what is left fits in the block of position pos. */
  function ChunkLen(pos: nat, rest: nat): (m: nat)
    ensures m <= rest && pos % BSIZE + m <= BSIZE && (rest > 0 ==> m > 0)
  {
    if rest < BSIZE - pos % BSIZE then rest else BSIZE - pos % BSIZE
  }

  lemma SliceJoin<T>(s: seq<T>, a: nat, b: nat, c: nat)
    requires a <= b <= c <= |s|
    ensures s[a..b] + s[b..c] == s[a..c]
  {
  }

  /** The file with data written over it at off, grown if need be. */
  function Splice(file: seq<byte>, off: nat, data: seq<byte>): seq<byte>
    requires off <= |file|
  {
    file[..off] + data + if off + |data| <= |file| then file[off + |data|..] else []
  }

  /** What readi returns: the part of [off, off+n) that lies in the file; nothing if off + n wraps. */
  function Slice(file: seq<byte>, off: nat, n: nat): seq<byte> {
    if off > |file| || off + n >= WORD_LIMIT then []
    else if off + n > |file| then file[off..]
    else file[off..off + n]
  }

  lemma SliceIs(file: seq<byte>, off: nat, n: nat, m: nat)
    requires off <= |file| && off + n < WORD_LIMIT && m == if off + n > |file| then |file| - off else n
    ensures Slice(file, off, n) == file[off..off + m] && |Slice(file, off, n)| == m
  {
  }

  /** gs is fs with data written to inode i at off and nothing else changed. */
  ghost predicate Overwrites(sb: Super, fs: Fs, gs: Fs, i: nat, off: nat, data: seq<byte>)
    requires WellFormed(sb, fs) && WellFormed(sb, gs) && i < sb.ninodes
  {
    && (forall k :: 0 <= k < MAXFILE * BSIZE ==>
          ByteAt(sb, gs, i, k) == if off <= k < off + |data| then data[k - off] else ByteAt(sb, fs, i, k))
    && (forall j, bn :: 0 <= j < sb.ninodes && j != i && 0 <= bn < MAXFILE ==>
          Content(sb, gs, j, bn) == Content(sb, fs, j, bn))
  }

  /** Blocks that a transfer of n bytes at off touches. */
  function Touched(off: nat, n: nat): nat {
    if n == 0 then 0 else (off + n - 1) / BSIZE - off / BSIZE + 1
  }

  /**
   The most blocks a writei of n bytes at off logs, for a file without holes: data, indirect and inode blocks, and a bit
   map block for each block that may be allocated, of which there are no more than the device has.
   */
  function WriteBudget(sb: Super, off: nat, n: nat): nat {
    Touched(off, n) + 2 + Min(FreshAllowed(off, Touched(off, n)) + 1, sb.Bitmaps())
  }

  function Min(a: nat, b: nat): nat {
    if a < b then a else b
  }

  /** Data blocks that count iterations can have allocated: not the first if the write starts inside a block. */
  function FreshAllowed(off: nat, count: nat): nat {
    if count == 0 then 0 else if off % BSIZE != 0 then count - 1 else count
  }

  /** The n numbers from a. */
  ghost function Interval(a: nat, n: nat): (s: set<nat>)
    ensures |s| == n && forall b :: b in s <==> a <= b < a + n
  {
    if n == 0 then {} else Interval(a, n - 1) + {a + n - 1}
  }

  ghost function BitmapBlocks(sb: Super): set<nat> {
    Interval(sb.bmapstart, sb.Bitmaps())
  }

  lemma IsBitmapBlock(sb: Super, b: nat)
    requires sb.Valid() && b < sb.size
    ensures sb.BBlock(b) in BitmapBlocks(sb)
  {
    BBlockInRange(sb, b);
  }

  /** One block's worth of writei: block bn of ms, overlaid with chunk. */
  lemma OverwriteStep(sb: Super, fs: Fs, ms: Fs, gs: Fs, i: nat, off: nat, data: seq<byte>, chunk: seq<byte>)
    requires WellFormed(sb, fs) && WellFormed(sb, ms) && WellFormed(sb, gs) && i < sb.ninodes
    requires Overwrites(sb, fs, ms, i, off, data)
    requires var pos := off + |data|; pos / BSIZE < MAXFILE && pos % BSIZE + |chunk| <= BSIZE
    requires var pos := off + |data|;
             forall j, m :: 0 <= j < sb.ninodes && 0 <= m < MAXFILE ==>
               Content(sb, gs, j, m) == if j == i && m == pos / BSIZE
                                        then Overlay(Content(sb, ms, i, pos / BSIZE), pos % BSIZE, chunk)
                                        else Content(sb, ms, j, m)
    ensures Overwrites(sb, fs, gs, i, off, data + chunk)
  {
    hide Content, Overlay;
    var pos := off + |data|;
    forall k | 0 <= k < MAXFILE * BSIZE
      ensures ByteAt(sb, gs, i, k) == if off <= k < off + |data + chunk| then (data + chunk)[k - off] else ByteAt(sb,
          fs, i, k)
    {
      assert ByteAt(sb, ms, i, k) == if off <= k < off + |data| then data[k - off] else ByteAt(sb, fs, i, k);
      if k / BSIZE == pos / BSIZE {
        assert k - pos == k % BSIZE - pos % BSIZE;
      }
    }
  }

  /** bmap neither adds nor removes bytes. */
  lemma OverwriteThroughMap(sb: Super, fs: Fs, ms: Fs, gs: Fs, i: nat, off: nat, data: seq<byte>)
    requires WellFormed(sb, fs) && WellFormed(sb, ms) && WellFormed(sb, gs) && i < sb.ninodes
    requires Overwrites(sb, fs, ms, i, off, data) && SameContents(sb, ms, gs)
    ensures Overwrites(sb, fs, gs, i, off, data)
  {
    hide Content;
    forall k | 0 <= k < MAXFILE * BSIZE
      ensures ByteAt(sb, gs, i, k) == ByteAt(sb, ms, i, k)
    {
      assert Content(sb, gs, i, k / BSIZE) == Content(sb, ms, i, k / BSIZE);
    }
  }

  /** A file overwritten at off <= size, with the size grown to cover the data, is the old file spliced. */
  lemma OverwriteIsSplice(sb: Super, fs: Fs, gs: Fs, i: nat, off: nat, data: seq<byte>)
    requires WellFormed(sb, fs) && WellFormed(sb, gs) && i < sb.ninodes
    requires Overwrites(sb, fs, gs, i, off, data) && off <= fs.inodes[i].size <= MAXFILE * BSIZE
    requires gs.inodes[i].size <= MAXFILE * BSIZE
    requires gs.inodes[i].size == if off + |data| > fs.inodes[i].size then off + |data| else fs.inodes[i].size
    ensures FileBytes(sb, gs, i) == Splice(FileBytes(sb, fs, i), off, data)
  {
    hide ByteAt;
  }

  /** Files with the same size and contents hold the same bytes. */
  lemma SameBytes(sb: Super, fs: Fs, gs: Fs, j: nat)
    requires WellFormed(sb, fs) && WellFormed(sb, gs) && j < sb.ninodes
    requires fs.inodes[j].size == gs.inodes[j].size <= MAXFILE * BSIZE
    requires forall bn :: 0 <= bn < MAXFILE ==> Content(sb, gs, j, bn) == Content(sb, fs, j, bn)
    ensures FileBytes(sb, gs, j) == FileBytes(sb, fs, j)
  {
    hide Content;
    forall k | 0 <= k < fs.inodes[j].size
      ensures ByteAt(sb, gs, j, k) == ByteAt(sb, fs, j, k)
    {
      assert Content(sb, gs, j, k / BSIZE) == Content(sb, fs, j, k / BSIZE);
    }
  }

  lemma FillsMaps(sb: Super, fs: Fs, gs: Fs, i: nat, bn: nat, b: nat)
    requires bn < MAXFILE && Fills(sb, fs, gs, i, SlotFor(bn), b) && Ref(fs, i, SlotFor(bn)) == 0
    ensures Maps(sb, fs, gs, i, bn, b)
  {
    hide Ref, SameContents;
  }

  lemma FillsTwiceMaps(sb: Super, fs: Fs, ms: Fs, gs: Fs, i: nat, bn: nat, ind: nat, b: nat)
    requires bn < MAXFILE && Fills(sb, fs, ms, i, NDIRECT, ind) && Fills(sb, ms, gs, i, SlotFor(bn), b)
    requires Ref(fs, i, SlotFor(bn)) == 0 && Ref(fs, i, NDIRECT) == 0
    ensures Maps(sb, fs, gs, i, bn, b)
  {
    hide Ref, Content;
  }

  /** A new indirect block holds no entries. */
  lemma FillsIndirect(sb: Super, fs: Fs, gs: Fs, i: nat, b: nat)
    requires Fills(sb, fs, gs, i, NDIRECT, b) && fs.inodes[i].addrs[NDIRECT] == 0
    ensures gs.inodes[i].addrs[NDIRECT] == b && 0 < b < |gs.blocks|
    ensures forall s :: NDIRECT < s < SLOTS ==> Ref(gs, i, s) == 0 && Ref(fs, i, s) == 0
  {
    hide SameContents, OnlyAddrs, Word;
    assert ValidSlot(fs, i, NDIRECT) && Ref(gs, i, NDIRECT) == b;
    forall s | NDIRECT < s < SLOTS
      ensures Ref(gs, i, s) == 0 && Ref(fs, i, s) == 0
    {
      assert ValidSlot(fs, i, s);
    }
  }

  lemma FillsEntry(sb: Super, fs: Fs, gs: Fs, i: nat, s: nat, b: nat)
    requires Fills(sb, fs, gs, i, s, b) && s != NDIRECT
    ensures gs.inodes[i].addrs[NDIRECT] == fs.inodes[i].addrs[NDIRECT]
  {
    hide SameContents, OnlyAddrs, Word;
    assert ValidSlot(fs, i, NDIRECT) && Ref(gs, i, NDIRECT) == Ref(fs, i, NDIRECT);
  }

  /** An entry of the indirect block, and the blocks that mapping it needs. */
  lemma IndirectEntry(fs: Fs, i: nat, k: nat)
    requires i < |fs.inodes| && k < NINDIRECT && SlotFor(NDIRECT + k) == NDIRECT + 1 + k
    ensures Ref(fs, i, NDIRECT) == fs.inodes[i].addrs[NDIRECT]
    ensures var ind := fs.inodes[i].addrs[NDIRECT];
            0 < ind < |fs.blocks| ==> Ref(fs, i, NDIRECT + 1 + k) == Word(fs.blocks[ind], k)
    ensures Need(fs, i, NDIRECT + k) == (if Ref(fs, i, NDIRECT + 1 + k) == 0 then 1 else 0)
                                        + (if fs.inodes[i].addrs[NDIRECT] == 0 then 1 else 0)
  {
  }

  lemma AlreadyMapped(sb: Super, fs: Fs, own: map<nat, Slot>, i: nat, bn: nat)
    requires WellFormed(sb, fs) && Slots(sb, fs, own) && i < |fs.inodes| && bn < MAXFILE && Ref(fs, i, SlotFor(bn)) != 0
    ensures Maps(sb, fs, fs, i, bn, Ref(fs, i, SlotFor(bn)))
  {
    hide Ref, Content;
    MappedIsOwned(sb, fs, own, i, SlotFor(bn));
  }

  lemma BitAddress(sb: Super, b: nat, bi: nat)
    requires b % BPB == 0 && bi < BPB
    ensures sb.BBlock(b + bi) == sb.BBlock(b) && (b + bi) % BPB == bi
  {
  }

  /** Every block whose contents have changed has been passed to log_write. */
  ghost predicate Logs(blocks: seq<Block>, logged: set<nat>, blocks': seq<Block>, logged': set<nat>) {
    && logged <= logged' && |blocks'| == |blocks|
    && forall b :: 0 <= b < |blocks| && blocks'[b] != blocks[b] ==> b in logged'
  }

  lemma LogsNone(blocks: seq<Block>, logged: set<nat>)
    ensures Logs(blocks, logged, blocks, logged)
  {
  }

  lemma LogsTrans(b0: seq<Block>, l0: set<nat>, b1: seq<Block>, l1: set<nat>, b2: seq<Block>, l2: set<nat>)
    requires Logs(b0, l0, b1, l1) && Logs(b1, l1, b2, l2)
    ensures Logs(b0, l0, b2, l2)
  {
  }

  lemma LogsPut(b0: seq<Block>, l0: set<nat>, b1: seq<Block>, l1: set<nat>, b: nat, data: Block)
    requires Logs(b0, l0, b1, l1) && b < |b1|
    ensures Logs(b0, l0, b1[b := data], l1 + {b})
  {
  }

  lemma LogsMore(b0: seq<Block>, l0: set<nat>, b1: seq<Block>, l1: set<nat>, b: nat)
    requires Logs(b0, l0, b1, l1)
    ensures Logs(b0, l0, b1, l1 + {b})
  {
  }

  // ----- how many blocks an operation takes

  /** The slots that must be filled for file block bn to be mapped. */
  ghost function SlotsOf(bn: nat): set<nat>
    requires bn < MAXFILE
  {
    {SlotFor(bn)} + if bn >= NDIRECT then {NDIRECT} else {}
  }

  predicate Touches(bn: nat, off: nat, n: nat) {
    n > 0 && off / BSIZE <= bn <= (off + n - 1) / BSIZE
  }

  /** The slots that must be filled for a transfer of n bytes at off. */
  ghost function SlotsUnder(off: nat, n: nat): set<nat> {
    set bn: nat, s: nat | bn < MAXFILE && Touches(bn, off, n) && s in SlotsOf(bn) :: s
  }

  /** The slots of inode i that own a block. */
  ghost function Held(own: map<nat, Slot>, i: nat): set<nat> {
    set b | b in own && own[b].inum == i :: own[b].index
  }

  ghost function Capacity(sb: Super): int {
    sb.size - sb.DataStart()
  }

  /** How many more blocks it takes for inode i to hold all of slots. */
  ghost function Missing(own: map<nat, Slot>, i: nat, slots: set<nat>): nat {
    |slots - Held(own, i)|
  }

  /** From own to own', inode i got one block for each of slots that it did not hold; no other block was taken. */
  ghost predicate Takes(own: map<nat, Slot>, own': map<nat, Slot>, i: nat, slots: set<nat>) {
    Held(own', i) == Held(own, i) + slots && |own'| == |own| + Missing(own, i, slots)
  }

  lemma TakesNothing(own: map<nat, Slot>, i: nat, slots: set<nat>)
    requires slots <= Held(own, i)
    ensures Takes(own, own, i, slots) && Missing(own, i, slots) == 0
  {
    hide Held;
    assert slots - Held(own, i) == {};
  }

  lemma TakesOne(own: map<nat, Slot>, i: nat, s: nat, b: nat)
    requires b !in own && s !in Held(own, i)
    ensures Takes(own, own[b := Slot(i, s)], i, {s}) && Missing(own, i, {s}) == 1
  {
    var own' := own[b := Slot(i, s)];
    assert b in own' && s in Held(own', i);
    forall t | t in Held(own, i)
      ensures t in Held(own', i)
    {
      var c :| c in own && own[c].inum == i && own[c].index == t;
      assert own'[c] == own[c];
    }
    assert Held(own', i) == Held(own, i) + {s};
    assert {s} - Held(own, i) == {s};
    assert own'.Keys == own.Keys + {b};
  }

  /** What is missing is missing before or after the first part is there. */
  lemma MissingSplit(own: map<nat, Slot>, own1: map<nat, Slot>, i: nat, s1: set<nat>, s2: set<nat>)
    requires Takes(own, own1, i, s1)
    ensures Missing(own, i, s1 + s2) == Missing(own, i, s1) + Missing(own1, i, s2)
  {
    hide Held;
    var h := Held(own, i);
    assert (s1 + s2) - h == (s1 - h) + (s2 - (h + s1));
  }

  lemma TakesTrans(own: map<nat, Slot>, own1: map<nat, Slot>, own2: map<nat, Slot>, i: nat, s1: set<nat>, s2: set<nat>)
    requires Takes(own, own1, i, s1) && Takes(own1, own2, i, s2)
    ensures Takes(own, own2, i, s1 + s2) && Missing(own, i, s1 + s2) == Missing(own, i, s1) + Missing(own1, i, s2)
  {
    hide Held, Missing;
    MissingSplit(own, own1, i, s1, s2);
  }

  lemma MissingMono(own: map<nat, Slot>, i: nat, s1: set<nat>, s2: set<nat>)
    requires s1 <= s2
    ensures Missing(own, i, s1) <= Missing(own, i, s2)
  {
    hide Held;
    var h := Held(own, i);
    assert s2 - h == (s1 - h) + ((s2 - s1) - h);
  }

  lemma HeldIs(sb: Super, fs: Fs, own: map<nat, Slot>, i: nat, s: nat)
    requires WellFormed(sb, fs) && Slots(sb, fs, own) && ValidSlot(fs, i, s)
    ensures s in Held(own, i) <==> Ref(fs, i, s) != 0
  {
    hide Ref;
    if Ref(fs, i, s) != 0 {
      assert own[Ref(fs, i, s) as nat] == Slot(i, s);
    }
    if s in Held(own, i) {
      var b :| b in own && own[b].inum == i && own[b].index == s;
      assert Ref(fs, i, s) == b;
    }
  }

  ghost function FreeBlocks(sb: Super, fs: Fs): set<nat>
    requires WellFormed(sb, fs)
  {
    set c: nat | c < sb.size && !Used(sb, fs, c)
  }

  /** The slots of inode i among these that hold no block. */
  ghost function Vacant(fs: Fs, i: nat, slots: set<nat>): set<nat> {
    set s | s in slots && ValidSlot(fs, i, s) && Ref(fs, i, s) == 0
  }

  lemma FreeCount(sb: Super, fs: Fs, own: map<nat, Slot>)
    requires WellFormed(sb, fs) && Owned(sb, fs, own)
    ensures |FreeBlocks(sb, fs)| == Capacity(sb) - |own|
  {
    hide Used, Ref, SlotsOwn;
    var data := Interval(sb.DataStart(), sb.size - sb.DataStart());
    assert FreeBlocks(sb, fs) == data - own.Keys;
    assert own.Keys <= data;
    assert data * own.Keys == own.Keys;
    assert |own.Keys| == |own|;
  }

  lemma VacantIs(sb: Super, fs: Fs, own: map<nat, Slot>, i: nat, slots: set<nat>)
    requires WellFormed(sb, fs) && Owned(sb, fs, own) && i < |fs.inodes| && forall s :: s in slots ==> s < SLOTS
    ensures |Vacant(fs, i, slots)| == Missing(own, i, slots)
  {
    hide Ref, Owned, Held;
    forall s | s in slots
      ensures s in Vacant(fs, i, slots) <==> s !in Held(own, i)
    {
      OwnedSlots(sb, fs, own);
      HeldIs(sb, fs, own, i, s);
    }
    assert Vacant(fs, i, slots) == slots - Held(own, i);
  }

  lemma OwnedSlots(sb: Super, fs: Fs, own: map<nat, Slot>)
    requires WellFormed(sb, fs) && Owned(sb, fs, own)
    ensures Slots(sb, fs, own)
  {
    hide OwnersHold, SlotsOwn, BitmapAgrees;
  }

  lemma SlotsUnderNone(off: nat)
    ensures SlotsUnder(off, 0) == {}
  {
  }

  lemma SlotsInRange(off: nat, n: nat)
    ensures forall s :: s in SlotsUnder(off, n) ==> s < SLOTS
  {
  }

  lemma SlotsUnderOne(pos: nat, m: nat)
    requires m > 0 && pos % BSIZE + m <= BSIZE && pos / BSIZE < MAXFILE
    ensures SlotsUnder(pos, m) == SlotsOf(pos / BSIZE)
  {
    hide SlotsOf;
    OneBlock(pos, m);
    forall s | s in SlotsOf(pos / BSIZE)
      ensures s in SlotsUnder(pos, m)
    {
      assert Touches(pos / BSIZE, pos, m);
    }
    assert SlotsUnder(pos, m) <= SlotsOf(pos / BSIZE);
  }

  lemma OneBlock(pos: nat, m: nat)
    requires m > 0 && pos % BSIZE + m <= BSIZE
    ensures (pos + m - 1) / BSIZE == pos / BSIZE
  {
  }

  lemma SlotsUnderSplit(off: nat, a: nat, b: nat)
    ensures SlotsUnder(off, a + b) == SlotsUnder(off, a) + SlotsUnder(off + a, b)
  {
    hide SlotsOf;
    forall bn: nat
      ensures Touches(bn, off, a + b) <==> Touches(bn, off, a) || Touches(bn, off + a, b)
    {
      TouchesSplit(bn, off, a, b);
    }
    hide Touches;
    assert SlotsUnder(off, a + b) <= SlotsUnder(off, a) + SlotsUnder(off + a, b);
    assert SlotsUnder(off, a) + SlotsUnder(off + a, b) <= SlotsUnder(off, a + b);
  }

  lemma TouchesSplit(bn: nat, off: nat, a: nat, b: nat)
    ensures Touches(bn, off, a + b) <==> Touches(bn, off, a) || Touches(bn, off + a, b)
  {
  }

  /** What balloc's result says about how many blocks are owned. */
  lemma AllocCount(sb: Super, fs: Fs, own: map<nat, Slot>, i: nat, s: nat, r: Result<nat>)
    requires WellFormed(sb, fs) && Owned(sb, fs, own) && s !in Held(own, i)
    requires r.Panic? ==> forall c :: 0 <= c < sb.size ==> Used(sb, fs, c)
    requires r.Ok? ==> r.value < sb.size && !Used(sb, fs, r.value)
    ensures r.Panic? <==> Exhausted(sb, own, i, {s})
    ensures r.Ok? ==> Takes(own, own[r.value := Slot(i, s)], i, {s})
  {
    hide Used, Held, Capacity, Takes, Missing, SlotsOwn, OwnersHold;
    FreeCount(sb, fs, own);
    MissingOne(own, i, s);
    if r.Ok? {
      assert r.value in FreeBlocks(sb, fs) && r.value !in own;
      TakesOne(own, i, s, r.value);
    } else {
      assert FreeBlocks(sb, fs) == {};
    }
  }

  lemma MissingOne(own: map<nat, Slot>, i: nat, s: nat)
    requires s !in Held(own, i)
    ensures Missing(own, i, {s}) == 1
  {
    assert {s} - Held(own, i) == {s};
  }

  /** There are too few free blocks for inode i to hold all of slots. */
  ghost predicate Exhausted(sb: Super, own: map<nat, Slot>, i: nat, slots: set<nat>) {
    |own| + Missing(own, i, slots) > Capacity(sb)
  }

  /** A slot in use takes nothing. */
  lemma SlotTaken(sb: Super, fs: Fs, own: map<nat, Slot>, i: nat, s: nat)
    requires WellFormed(sb, fs) && Owned(sb, fs, own) && ValidSlot(fs, i, s) && Ref(fs, i, s) != 0
    ensures Takes(own, own, i, {s}) && !Exhausted(sb, own, i, {s})
  {
    hide Used, Ref, Held, Owned, Capacity;
    FreeCount(sb, fs, own);
    OwnedSlots(sb, fs, own);
    HeldIs(sb, fs, own, i, s);
    TakesNothing(own, i, {s});
  }

  lemma ExhaustedSooner(sb: Super, own: map<nat, Slot>, i: nat, s1: set<nat>, s2: set<nat>)
    requires Exhausted(sb, own, i, s1) && s1 <= s2
    ensures Exhausted(sb, own, i, s2)
  {
    hide Missing;
    MissingMono(own, i, s1, s2);
  }

  lemma ExhaustedLater(sb: Super, own: map<nat, Slot>, own1: map<nat, Slot>, i: nat, s1: set<nat>, s2: set<nat>)
    requires Takes(own, own1, i, s1)
    ensures Exhausted(sb, own1, i, s2) <==> Exhausted(sb, own, i, s1 + s2)
  {
    hide Missing;
    MissingSplit(own, own1, i, s1, s2);
  }

  lemma IndirectFails(sb: Super, own: map<nat, Slot>, i: nat, k: nat)
    requires k < NINDIRECT && Exhausted(sb, own, i, {NDIRECT})
    ensures Exhausted(sb, own, i, SlotsOf(NDIRECT + k))
  {
    hide Exhausted;
    ExhaustedSooner(sb, own, i, {NDIRECT}, SlotsOf(NDIRECT + k));
  }

  lemma IndirectThere(sb: Super, own: map<nat, Slot>, own1: map<nat, Slot>, i: nat, k: nat)
    requires k < NINDIRECT && Takes(own, own1, i, {NDIRECT})
    ensures Exhausted(sb, own1, i, {NDIRECT + 1 + k}) <==> Exhausted(sb, own, i, SlotsOf(NDIRECT + k))
  {
    hide Exhausted, Takes;
    ExhaustedLater(sb, own, own1, i, {NDIRECT}, {NDIRECT + 1 + k});
    assert {NDIRECT} + {NDIRECT + 1 + k} == SlotsOf(NDIRECT + k);
  }

  lemma IndirectTakes(own: map<nat, Slot>, own1: map<nat, Slot>, own2: map<nat, Slot>, i: nat, k: nat)
    requires k < NINDIRECT && Takes(own, own1, i, {NDIRECT}) && Takes(own1, own2, i, {NDIRECT + 1 + k})
    ensures Takes(own, own2, i, SlotsOf(NDIRECT + k))
  {
    hide Takes, Missing;
    TakesTrans(own, own1, own2, i, {NDIRECT}, {NDIRECT + 1 + k});
    assert {NDIRECT} + {NDIRECT + 1 + k} == SlotsOf(NDIRECT + k);
  }

  /** There are fewer free blocks than inode i needs for a write of n bytes at off. */
  ghost predicate NoRoom(sb: Super, fs: Fs, i: nat, off: nat, n: nat)
    requires WellFormed(sb, fs)
  {
    |FreeBlocks(sb, fs)| < |Vacant(fs, i, SlotsUnder(off, n))|
  }

  lemma NoRoomIs(sb: Super, fs: Fs, own: map<nat, Slot>, i: nat, off: nat, n: nat)
    requires WellFormed(sb, fs) && Owned(sb, fs, own) && i < |fs.inodes|
    ensures NoRoom(sb, fs, i, off, n) <==> Exhausted(sb, own, i, SlotsUnder(off, n))
  {
    hide FreeBlocks, Vacant, SlotsUnder, Owned, Missing;
    FreeCount(sb, fs, own);
    SlotsInRange(off, n);
    VacantIs(sb, fs, own, i, SlotsUnder(off, n));
  }

  /** What was taken are free blocks, one for each empty slot. */
  lemma TookWhatItNeeds(sb: Super, fs: Fs, own: map<nat, Slot>, gs: Fs, own': map<nat, Slot>, i: nat, off: nat, n: nat)
    requires WellFormed(sb, fs) && Owned(sb, fs, own) && i < |fs.inodes|
    requires WellFormed(sb, gs) && Owned(sb, gs, own') && Takes(own, own', i, SlotsUnder(off, n))
    ensures |FreeBlocks(sb, fs)| - |FreeBlocks(sb, gs)| == |Vacant(fs, i, SlotsUnder(off, n))|
  {
    hide FreeBlocks, Vacant, SlotsUnder, Owned, Missing, Held;
    FreeCount(sb, fs, own);
    FreeCount(sb, gs, own');
    SlotsInRange(off, n);
    VacantIs(sb, fs, own, i, SlotsUnder(off, n));
  }

  lemma HadRoom(sb: Super, fs: Fs, own: map<nat, Slot>, gs: Fs, own': map<nat, Slot>, i: nat, off: nat, n: nat)
    requires WellFormed(sb, fs) && Owned(sb, fs, own) && i < |fs.inodes|
    requires WellFormed(sb, gs) && Owned(sb, gs, own') && Takes(own, own', i, SlotsUnder(off, n))
    ensures !NoRoom(sb, fs, i, off, n)
  {
    hide FreeBlocks, Vacant, SlotsUnder, Owned, Takes;
    TookWhatItNeeds(sb, fs, own, gs, own', i, off, n);
  }

  lemma WriteStops(sb: Super, own: map<nat, Slot>, own1: map<nat, Slot>, i: nat, off: nat, tot: nat, n: nat)
    requires Takes(own, own1, i, SlotsUnder(off, tot)) && tot < n && (off + tot) / BSIZE < MAXFILE
    requires Exhausted(sb, own1, i, SlotsOf((off + tot) / BSIZE))
    ensures Exhausted(sb, own, i, SlotsUnder(off, n))
  {
    hide Takes, Exhausted, SlotsUnder, SlotsOf;
    ExhaustedLater(sb, own, own1, i, SlotsUnder(off, tot), SlotsOf((off + tot) / BSIZE));
    SlotsUnderOne(off + tot, 1);
    SlotsUnderSplit(off, tot, 1);
    SlotsUnderSplit(off, tot + 1, n - tot - 1);
    ExhaustedSooner(sb, own, i, SlotsUnder(off, tot + 1), SlotsUnder(off, n));
  }

  lemma WriteTakes(own: map<nat, Slot>, own1: map<nat, Slot>, own2: map<nat, Slot>, i: nat, off: nat, tot: nat, m: nat)
    requires Takes(own, own1, i, SlotsUnder(off, tot)) && (off + tot) / BSIZE < MAXFILE
    requires m > 0 && (off + tot) % BSIZE + m <= BSIZE && Takes(own1, own2, i, SlotsOf((off + tot) / BSIZE))
    ensures Takes(own, own2, i, SlotsUnder(off, tot + m))
  {
    hide Takes, SlotsUnder, SlotsOf, Missing;
    SlotsUnderOne(off + tot, m);
    SlotsUnderSplit(off, tot, m);
    TakesTrans(own, own1, own2, i, SlotsUnder(off, tot), SlotsOf((off + tot) / BSIZE));
  }

  lemma WriteTakesNone(own: map<nat, Slot>, i: nat, off: nat)
    ensures Takes(own, own, i, SlotsUnder(off, 0))
  {
    hide SlotsUnder, Takes;
    SlotsUnderNone(off);
    TakesNothing(own, i, {});
  }

  class Volume {
    const sb: Super
    var blocks: seq<Block>
    var inodes: seq<Inode>
    /** The inodes as the inode blocks hold them; iupdate copies inodes here. */
    var dinodes: seq<Inode>
    ghost var own: map<nat, Slot>
    /** The blocks passed to log_write since the operation began. */
    ghost var logged: set<nat>

    ghost function View(): Fs
      reads this
    {
      Fs(blocks, inodes)
    }

    ghost predicate Valid()
      reads this
    {
      && WellFormed(sb, View())
      && Owned(sb, View(), own)
      && SizesOk(View())
      && |dinodes| == |inodes|
    }

    /** balloc: the lowest free block, marked and zeroed; it panics exactly when no block is free. */
    method Balloc() returns (r: Result<nat>)
      requires WellFormed(sb, View())
      modifies this`blocks, this`logged
      ensures r.Panic? ==> View() == old(View()) && forall c :: 0 <= c < sb.size ==> Used(sb, View(), c)
      ensures r.Ok? ==> r.value < sb.size && !Used(sb, old(View()), r.value)
                        && (forall c :: 0 <= c < r.value ==> Used(sb, old(View()), c))
                        && View() == Alloc(sb, old(View()), r.value)
                        && logged == old(logged) + {sb.BBlock(r.value), r.value}
    {
      hide Bit, SetBit;
      var b := 0;
      while b < sb.size
        invariant b % BPB == 0 && View() == old(View()) && logged == old(logged)
        invariant forall c :: 0 <= c < b && c < sb.size ==> Used(sb, View(), c)
      {
        BBlockInRange(sb, b);
        var bp := blocks[sb.BBlock(b)];
        var bi := 0;
        while bi < BPB && b + bi < sb.size
          invariant bi <= BPB && View() == old(View()) && logged == old(logged)
          invariant forall c :: 0 <= c < b + bi && c < sb.size ==> Used(sb, View(), c)
        {
          BitAddress(sb, b, bi);
          if !Bit(bp, bi) {
            blocks := blocks[sb.BBlock(b) := SetBit(bp, bi)];
            logged := logged + {sb.BBlock(b)};
            Bzero(b + bi);
            return Ok(b + bi);
          }
          bi := bi + 1;
        }
        b := b + BPB;
      }
      r := Panic;
    }

    method Bzero(b: nat)
      requires b < |blocks|
      modifies this`blocks, this`logged
      ensures View() == PutBlock(old(View()), b, ZERO_BLOCK) && logged == old(logged) + {b}
    {
      blocks := blocks[b := ZERO_BLOCK];
      logged := logged + {b};
    }

    /** bfree: panics exactly when the block is already free. */
    method Bfree(b: nat) returns (r: Result<()>)
      requires WellFormed(sb, View()) && b < sb.size
      modifies this`blocks, this`logged
      ensures r.Panic? <==> !Used(sb, old(View()), b)
      ensures r.Ok? ==> View() == MarkFree(sb, old(View()), b) && logged == old(logged) + {sb.BBlock(b)}
                        && Logs(old(blocks), old(logged), blocks, logged)
    {
      BBlockInRange(sb, b);
      var bp := blocks[sb.BBlock(b)];
      if !Bit(bp, b % BPB) {
        return Panic;
      }
      blocks := blocks[sb.BBlock(b) := ClearBit(bp, b % BPB)];
      logged := logged + {sb.BBlock(b)};
      r := Ok(());
    }

    /** balloc for slot s of inode i, followed by the store into the slot. */
    method AllocSlot(i: nat, s: nat) returns (r: Result<nat>)
      requires Valid() && ValidSlot(View(), i, s) && Ref(View(), i, s) == 0
      requires s > NDIRECT ==> inodes[i].addrs[NDIRECT] != 0
      modifies this`blocks, this`inodes, this`own, this`logged
      ensures WellFormed(sb, View())
      ensures r.Panic? ==> forall c :: 0 <= c < sb.size ==> Used(sb, View(), c)
      ensures r.Ok? ==> Valid() && r.value < sb.size && Fills(sb, old(View()), View(), i, s, r.value)
      ensures r.Ok? ==> logged == old(logged) + {sb.BBlock(r.value), r.value}
                                  + if s > NDIRECT then {old(inodes)[i].addrs[NDIRECT] as nat} else {}
      ensures r.Ok? ==> Logs(old(blocks), old(logged), blocks, logged)
      ensures r.Panic? <==> Exhausted(sb, old(own), i, {s})
      ensures r.Ok? ==> Takes(old(own), own, i, {s})
    {
      hide Bit, SetBit, Word, SetWord, Ref, Content, Used, OwnersHold, SlotsOwn, BitmapAgrees, Takes, Held,
           Exhausted;
      ghost var fs := View();
      IndirectIsOwned(sb, fs, own, i);
      HeldIs(sb, fs, own, i, s);
      r := Balloc();
      AllocCount(sb, fs, own, i, s, r);
      if r.Panic? {
        return;
      }
      var b := r.value;
      AllocSlotKeeps(sb, fs, own, i, s, b);
      AllocKeeps(sb, fs, own, b);
      if s <= NDIRECT {
        inodes := inodes[i := inodes[i].(addrs := inodes[i].addrs[s := b])];
      } else {
        var ind := inodes[i].addrs[NDIRECT];
        blocks := blocks[ind := SetWord(blocks[ind], s - NDIRECT - 1, b)];
        logged := logged + {ind};
      }
      own := own[b := Slot(i, s)];
      assert View() == PutSlot(Alloc(sb, fs, b), i, s, b);
    }

    /** The indirect half of bmap, for file block NDIRECT + k. */
    method BmapIndirect(i: nat, k: nat) returns (r: Result<nat>, ghost bm: set<nat>)
      requires Valid() && i < |inodes| && k < NINDIRECT
      modifies this`blocks, this`inodes, this`own, this`logged
      ensures WellFormed(sb, View())
      ensures r.Panic? ==> forall c :: 0 <= c < sb.size ==> Used(sb, View(), c)
      ensures r.Ok? ==> Valid() && Maps(sb, old(View()), View(), i, NDIRECT + k, r.value)
      ensures Need(old(View()), i, NDIRECT + k) == 0 ==> r.Ok? && View() == old(View()) && own == old(own)
      ensures r.Ok? ==> |bm| <= Need(old(View()), i, NDIRECT + k) && bm <= BitmapBlocks(sb)
      ensures r.Ok? ==> logged <= old(logged) + bm + {r.value, inodes[i].addrs[NDIRECT]}
      ensures r.Ok? ==> Logs(old(blocks), old(logged), blocks, logged)
      ensures r.Panic? <==> Exhausted(sb, old(own), i, SlotsOf(NDIRECT + k))
      ensures r.Ok? ==> Takes(old(own), own, i, SlotsOf(NDIRECT + k))
    {
      hide Word, SetWord, Used, OwnersHold, SlotsOwn, BitmapAgrees, Fills, Maps, BitmapBlocks, Ref, Need, Logs, Takes,
           Exhausted, SlotsOf;
      LogsNone(blocks, logged);
      bm := {};
      ghost var fs := View();
      IndirectEntry(fs, i, k);
      var ind := inodes[i].addrs[NDIRECT];
      var newInd := ind == 0;
      if newInd {
        r := AllocSlot(i, NDIRECT);
        if r.Panic? {
          IndirectFails(sb, old(own), i, k);
          return;
        }
        bm := {sb.BBlock(r.value)};
        IsBitmapBlock(sb, r.value);
        FillsIndirect(sb, fs, View(), i, r.value);
        ind := inodes[i].addrs[NDIRECT];
      } else {
        SlotTaken(sb, fs, own, i, NDIRECT);
      }
      ghost var ms, logged1, own1 := View(), logged, own;
      IndirectThere(sb, old(own), own1, i, k);
      IndirectIsOwned(sb, ms, own, i);
      var addr := Word(blocks[ind], k);
      IndirectEntry(ms, i, k);
      if addr == 0 {
        r := AllocSlot(i, NDIRECT + 1 + k);
        if r.Ok? {
          IndirectTakes(old(own), own1, own, i, k);
          bm := bm + {sb.BBlock(r.value)};
          IsBitmapBlock(sb, r.value);
          FillsEntry(sb, ms, View(), i, NDIRECT + 1 + k, r.value);
          LogsTrans(fs.blocks, old(logged), ms.blocks, logged1, blocks, logged);
          if newInd {
            FillsTwiceMaps(sb, fs, ms, View(), i, NDIRECT + k, ind, r.value);
          } else {
            FillsMaps(sb, fs, View(), i, NDIRECT + k, r.value);
          }
        }
      } else {
        AlreadyMapped(sb, ms, own, i, NDIRECT + k);
        SlotTaken(sb, ms, own, i, NDIRECT + 1 + k);
        IndirectTakes(old(own), own1, own, i, k);
        r := Ok(addr);
      }
    }

    /**
     bmap: the block that holds file block bn, allocated if there is none. It changes the
     contents of no file; it panics exactly past the largest file, or if there are fewer free blocks than it needs.
     bm are the bit map blocks it logged.
     */
    method Bmap(i: nat, bn: nat) returns (r: Result<nat>, ghost bm: set<nat>)
      requires Valid() && i < |inodes|
      modifies this`blocks, this`inodes, this`own, this`logged
      ensures WellFormed(sb, View())
      ensures r.Panic? ==> bn >= MAXFILE || forall c :: 0 <= c < sb.size ==> Used(sb, View(), c)
      ensures r.Ok? ==> Valid() && bn < MAXFILE && Maps(sb, old(View()), View(), i, bn, r.value)
      ensures bn < MAXFILE && Need(old(View()), i, bn) == 0 ==> r.Ok? && View() == old(View()) && own == old(own)
      ensures r.Ok? ==> |bm| <= Need(old(View()), i, bn) && bm <= BitmapBlocks(sb)
      ensures r.Ok? ==> logged <= old(logged) + bm + {r.value}
                                  + if bn >= NDIRECT then {inodes[i].addrs[NDIRECT] as nat} else {}
      ensures r.Ok? ==> Logs(old(blocks), old(logged), blocks, logged)
      ensures r.Panic? <==> bn >= MAXFILE || Exhausted(sb, old(own), i, SlotsOf(bn))
      ensures r.Ok? ==> Takes(old(own), own, i, SlotsOf(bn))
    {
      hide Word, SetWord, Used, OwnersHold, SlotsOwn, BitmapAgrees, Fills, Maps, BitmapBlocks, Logs, Takes, Exhausted;
      LogsNone(blocks, logged);
      bm := {};
      if bn < NDIRECT {
        var addr := inodes[i].addrs[bn];
        assert addr == Ref(View(), i, bn) && SlotsOf(bn) == {bn};
        if addr == 0 {
          r := AllocSlot(i, bn);
          if r.Ok? {
            bm := {sb.BBlock(r.value)};
            IsBitmapBlock(sb, r.value);
            FillsMaps(sb, old(View()), View(), i, bn, r.value);
          }
        } else {
          AlreadyMapped(sb, View(), own, i, bn);
          SlotTaken(sb, View(), own, i, bn);
          r := Ok(addr);
        }
      } else if bn - NDIRECT < NINDIRECT {
        r, bm := BmapIndirect(i, bn - NDIRECT);
      } else {
        r := Panic;
      }
    }

    /** One round of readi's loop: len bytes of the file at pos, all in one block. fs is the state readi started in. */
    method ReadBlock(i: nat, pos: nat, len: nat, ghost fs: Fs) returns (r: Result<seq<byte>>)
      requires Valid() && WellFormed(sb, fs) && SizesOk(fs) && i < |inodes| && len > 0
      requires SameContents(sb, fs, View()) && OnlyAddrs(fs, View(), i) && inodes[i].size == fs.inodes[i].size
      requires pos + len <= fs.inodes[i].size && pos % BSIZE + len <= BSIZE
      modifies this`blocks, this`inodes, this`own, this`logged
      ensures r.Panic? && old(View()) == fs ==> !NoHoles(fs, i)
      ensures pos / BSIZE < MAXFILE && (r.Panic? <==> Exhausted(sb, old(own), i, SlotsOf(pos / BSIZE)))
      ensures r.Ok? ==> Takes(old(own), own, i, SlotsOf(pos / BSIZE))
      ensures r.Ok? ==> Valid() && SameContents(sb, fs, View()) && OnlyAddrs(fs, View(), i)
                        && inodes[i].size == fs.inodes[i].size && r.value == FileBytes(sb, fs, i)[pos..pos + len]
      ensures NoHoles(fs, i) && old(View()) == fs ==> View() == fs && own == old(own)
    {
      hide Content, Owned, Used, SameContents, OnlyAddrs, Maps, FileBytes, NoHoles, Need, BitmapBlocks, Takes,
           Exhausted, SlotsOf;
      ghost var ms := View();
      PosInRange(pos, 0, len);
      MappedNeedsNothing(sb, fs, i, pos);
      var b, bm := Bmap(i, pos / BSIZE);
      if b.Panic? {
        return Panic;
      }
      MapsKeeps(sb, fs, ms, View(), i, pos / BSIZE, b.value);
      ReadChunk(sb, fs, ms, View(), i, pos, len, b.value);
      r := Ok(blocks[b.value].bytes[pos % BSIZE..pos % BSIZE + len]);
    }

    /**
     readi: the bytes of the file in [off, off+n), or none (-1) exactly if they are more than the good bytes that can
     be copied to the destination. From a file without holes it changes nothing; otherwise it allocates a block for each
     hole it reads, if there are enough, but no file's contents change.
     */
    method ReadI(i: nat, off: word, n: word, good: nat) returns (r: Result<Option<seq<byte>>>)
      requires Valid() && i < |inodes|
      modifies this`blocks, this`inodes, this`own, this`logged
      ensures r.Panic? ==> !NoHoles(old(View()), i)
                           && NoRoom(sb, old(View()), i, off, |Slice(FileBytes(sb, old(View()), i), off, n)|)
      ensures r.Ok? && r.value.Some? ==> Takes(old(own), own, i, SlotsUnder(off, |r.value.value|))
      ensures r.Ok? ==> Valid() && SameContents(sb, old(View()), View()) && OnlyAddrs(old(View()), View(), i)
      ensures r.Ok? ==> var bytes := Slice(FileBytes(sb, old(View()), i), off, n);
                        r.value == if |bytes| <= good then Some(bytes) else None
      ensures NoHoles(old(View()), i) ==> View() == old(View()) && own == old(own)
    {
      hide Content, Owned, Used, SameContents, OnlyAddrs, Maps, FileBytes, NoHoles, Need, ChunkLen, BitmapBlocks, Takes,
           Exhausted, SlotsOf, SlotsUnder, NoRoom;
      var size := inodes[i].size;
      WriteTakesNone(own, i, off);
      SameContentsRefl(sb, View(), i);
      if off > size || off + n >= WORD_LIMIT {
        return Ok(Some([]));
      }
      var m := if off + n > size then size - off else n;
      ghost var fs := View();
      ghost var file := FileBytes(sb, fs, i);
      SliceIs(file, off, n, m);
      NoRoomIs(sb, fs, own, i, off, m);
      hide Slice;
      var dst: seq<byte> := [];
      while |dst| < m
        invariant Valid() && i < |inodes|
        invariant |dst| <= m && |dst| <= good && off + m <= size == inodes[i].size
        invariant SameContents(sb, fs, View()) && OnlyAddrs(fs, View(), i)
        invariant NoHoles(fs, i) ==> View() == fs && own == old(own)
        invariant dst == file[off..off + |dst|] && Takes(old(own), own, i, SlotsUnder(off, |dst|))
        decreases m - |dst|
      {
        var pos := off + |dst|;
        var len := ChunkLen(pos, m - |dst|);
        ghost var own1 := own;
        var chunk := ReadBlock(i, pos, len, fs);
        if chunk.Panic? {
          WriteStops(sb, old(own), own1, i, off, |dst|, m);
          return Panic;
        }
        WriteTakes(old(own), own1, own, i, off, |dst|, len);
        if |dst| + len > good {
          return Ok(None);
        }
        SliceJoin(file, off, pos, pos + len);
        dst := dst + chunk.value;
      }
      r := Ok(Some(dst));
    }

    /** iupdate: copy the in-memory inode to its inode block. */
    method IUpdate(i: nat)
      requires i < |inodes| == |dinodes|
      modifies this`dinodes, this`logged
      ensures dinodes == old(dinodes)[i := inodes[i]] && logged == old(logged) + {sb.IBlock(i)}
    {
      dinodes := dinodes[i := inodes[i]];
      logged := logged + {sb.IBlock(i)};
    }

    /**
     writei, from a kernel buffer. It fails with -1 and changes nothing when off is past the
     end, off + n wraps, or the file would exceed the largest size. Otherwise the file becomes
     its old bytes with src spliced in at off, every other file is untouched, files without
     holes stay without holes, every block that has changed is logged, and so is the inode, and
     the blocks logged stay within WriteBudget. It takes one block for each slot it needs that is
     empty, and panics exactly if there are too few.
     */
    method WriteI(i: nat, off: word, src: seq<byte>) returns (r: Result<int>)
      requires Valid() && i < |inodes| && |src| < WORD_LIMIT
      modifies this
      ensures r == Ok(-1) <==> off > old(inodes)[i].size || off + |src| >= WORD_LIMIT || off + |src| > MAXFILE * BSIZE
      ensures r == Ok(-1) ==>
                View() == old(View()) && own == old(own) && logged == old(logged) && dinodes == old(dinodes)
      ensures r.Panic? ==> WellFormed(sb, View()) && forall c :: 0 <= c < sb.size ==> Used(sb, View(), c)
      ensures r != Ok(-1) ==> (r.Panic? <==> NoRoom(sb, old(View()), i, off, |src|))
      ensures r == Ok(|src|) ==> Takes(old(own), own, i, SlotsUnder(off, |src|))
      ensures r.Ok? ==> Valid() && (r.value == -1 || r.value == |src|)
      ensures r == Ok(|src|) ==> WriteDone(sb, old(View()), View(), i, off, src)
      ensures r == Ok(|src|) ==> dinodes == old(dinodes)[i := inodes[i]] && sb.IBlock(i) in logged
      ensures r == Ok(|src|) ==> Logs(old(blocks), old(logged), blocks, logged)
      ensures r == Ok(|src|) && NoHoles(old(View()), i) ==> |logged - old(logged)| <= WriteBudget(sb, off, |src|)
    {
      hide Content, Owned, Used, Maps, FileBytes, NoHoles, WriteInv, WriteDone, Overlay, Need, WriteBudget, ChunkLen,
           BitmapBlocks, Logs, Takes, Exhausted, SlotsUnder, SlotsOf, NoRoom, SlotFor;
      if off > inodes[i].size || off + |src| >= WORD_LIMIT {
        return Ok(-1);
      }
      if off + |src| > MAXFILE * BSIZE {
        return Ok(-1);
      }
      ghost var fs := View();
      ghost var tally := Tally({}, {}, 0);
      WriteInvStarts(sb, fs, own, i, off, src, logged);
      LogsNone(blocks, logged);
      WriteTakesNone(own, i, off);
      NoRoomIs(sb, fs, own, i, off, |src|);
      var tot := 0;
      while tot < |src|
        invariant tot <= |src| && WellFormed(sb, fs) && dinodes == old(dinodes)
        invariant Valid() && i < |inodes|
        invariant WriteInv(sb, fs, View(), i, off, src, tot, old(logged), logged, tally)
        invariant Logs(old(blocks), old(logged), blocks, logged) && Takes(old(own), own, i, SlotsUnder(off, tot))
      {
        var pos := off + tot;
        ghost var ms, before, own1 := View(), logged, own;
        PosInRange(off, tot, |src|);
        var b, bm := Bmap(i, pos / BSIZE);
        if b.Panic? {
          WriteStops(sb, old(own), own1, i, off, tot, |src|);
          return Panic;
        }
        var m := ChunkLen(pos, |src| - tot);
        WriteTakes(old(own), own1, own, i, off, tot, m);
        ghost var mid, logged1 := View(), logged;
        LogsTrans(old(blocks), old(logged), ms.blocks, before, blocks, logged);
        MappedBlock(sb, ms, mid, i, pos / BSIZE, b.value);
        var data := Overlay(blocks[b.value], pos % BSIZE, src[tot..tot + m]);
        blocks := blocks[b.value := data];
        logged := logged + {b.value};
        LogsPut(old(blocks), old(logged), mid.blocks, logged1, b.value, data);
        WriteInvStep(sb, fs, ms, mid, View(), own, i, off, src, tot, m, b.value, bm, old(logged), before, logged,
                     tally);
        tally := Tally(tally.data + {b.value}, tally.bitmap + bm, tally.count + 1);
        tot := tot + m;
      }
      WriteInvEnds(sb, fs, View(), own, i, off, src, old(logged), logged, tally);
      LogsMore(old(blocks), old(logged), blocks, logged, sb.IBlock(i));
      if off + tot > inodes[i].size {
        inodes := inodes[i := inodes[i].(size := off + tot)];
      }
      IUpdate(i);
      HadRoom(sb, fs, old(own), View(), own, i, off, |src|);
      r := Ok(tot);
    }

    /** Free the block in slot s of inode i, if there is one; gone are the slots already freed. */
    method FreeSlot(i: nat, s: nat, b: nat, ghost fs: Fs, ghost gone: set<nat>) returns (r: Result<()>)
      requires WellFormed(sb, fs) && Owned(sb, fs, own) && ValidSlot(fs, i, s) && b == Ref(fs, i, s) && s !in gone
      requires WellFormed(sb, View()) && Freed(sb, fs, View(), own, i, gone)
      modifies this`blocks, this`logged
      ensures r.Ok? && WellFormed(sb, View()) && Freed(sb, fs, View(), own, i, gone + {s})
      ensures Logs(old(blocks), old(logged), blocks, logged)
    {
      hide Owned, Used, Freed, Ref, MarkFree;
      r := Ok(());
      if b != 0 {
        FreeIsUsed(sb, fs, View(), own, i, gone, s);
        ghost var gs := View();
        r := Bfree(b);
        FreedOne(sb, fs, gs, own, i, gone, s);
      } else {
        FreedEmpty(sb, fs, View(), own, i, gone, s);
      }
    }

    /**
     itrunc: free every block of the file. It never panics ("freeing free block"), frees
     exactly the blocks the inode owned, once each, leaves every other file alone, and logs
     every block that has changed and the inode.
     */
    method Itrunc(i: nat) returns (r: Result<()>)
      requires Valid() && i < |inodes|
      modifies this
      ensures r.Ok? && Valid()
      ensures inodes == old(inodes)[i := Inode(0, NO_ADDRS)] && dinodes == old(dinodes)[i := inodes[i]]
      ensures own == Disown(old(own), i)
      ensures forall c :: 0 <= c < sb.size ==>
                (Used(sb, View(), c) <==> Used(sb, old(View()), c) && !Holds(old(View()), i, c))
      ensures forall j :: 0 <= j < |inodes| && j != i ==> FileBytes(sb, View(), j) == FileBytes(sb, old(View()), j)
      ensures Logs(old(blocks), old(logged), blocks, logged) && sb.IBlock(i) in logged
    {
      hide Owned, Used, Freed, Word, FileBytes, Holds, Logs;
      LogsNone(blocks, logged);
      ghost var fs := View();
      ghost var gone: set<nat> := {};
      FreedNone(sb, fs, own, i);
      var k := 0;
      while k < NDIRECT
        invariant k <= NDIRECT && WellFormed(sb, View()) && own == old(own) && dinodes == old(dinodes)
        invariant inodes == fs.inodes[i := fs.inodes[i].(addrs := inodes[i].addrs)]
        invariant forall t :: 0 <= t <= NDIRECT ==> inodes[i].addrs[t] == if t < k then 0 else fs.inodes[i].addrs[t]
        invariant forall t :: t in gone <==> 0 <= t < k
        invariant Freed(sb, fs, View(), own, i, gone)
        invariant Logs(old(blocks), old(logged), blocks, logged)
      {
        ghost var blocks1, logged1 := blocks, logged;
        r := FreeSlot(i, k, inodes[i].addrs[k], fs, gone);
        LogsTrans(old(blocks), old(logged), blocks1, logged1, blocks, logged);
        FreedInodes(sb, fs, View(), inodes[i := inodes[i].(addrs := inodes[i].addrs[k := 0])], own, i, gone + {k});
        inodes := inodes[i := inodes[i].(addrs := inodes[i].addrs[k := 0])];
        gone := gone + {k};
        k := k + 1;
      }
      var ind := inodes[i].addrs[NDIRECT];
      if ind != 0 {
        IndirectStays(sb, fs, View(), own, i, gone);
        var a := blocks[ind];
        var j := 0;
        while j < NINDIRECT
          invariant j <= NINDIRECT && WellFormed(sb, View()) && own == old(own) && dinodes == old(dinodes)
          invariant inodes == fs.inodes[i := fs.inodes[i].(addrs := inodes[i].addrs)]
          invariant forall t :: 0 <= t <= NDIRECT ==> inodes[i].addrs[t] == if t < NDIRECT then 0 else ind
          invariant forall t :: t in gone <==> 0 <= t < NDIRECT || NDIRECT < t <= NDIRECT + j
          invariant Freed(sb, fs, View(), own, i, gone)
          invariant Logs(old(blocks), old(logged), blocks, logged)
        {
          ghost var blocks1, logged1 := blocks, logged;
          r := FreeSlot(i, NDIRECT + 1 + j, Word(a, j), fs, gone);
          LogsTrans(old(blocks), old(logged), blocks1, logged1, blocks, logged);
          gone := gone + {NDIRECT + 1 + j};
          j := j + 1;
        }
        ghost var blocks1, logged1 := blocks, logged;
        r := FreeSlot(i, NDIRECT, ind, fs, gone);
        LogsTrans(old(blocks), old(logged), blocks1, logged1, blocks, logged);
        FreedInodes(sb, fs, View(), inodes[i := inodes[i].(addrs := inodes[i].addrs[NDIRECT := 0])], own, i,
                    gone + {NDIRECT});
        inodes := inodes[i := inodes[i].(addrs := inodes[i].addrs[NDIRECT := 0])];
        gone := gone + {NDIRECT};
      }
      assert inodes[i].addrs == NO_ADDRS;
      FreedInodes(sb, fs, View(), inodes[i := inodes[i].(size := 0)], own, i, gone);
      inodes := inodes[i := inodes[i].(size := 0)];
      FreedAll(sb, fs, View(), own, i, gone);
      own := Disown(own, i);
      LogsMore(old(blocks), old(logged), blocks, logged, sb.IBlock(i));
      IUpdate(i);
      r := Ok(());
    }
  }

  // ----- itrunc's loops

  /** Some slot of inode i holds block c. */
  ghost predicate Holds(fs: Fs, i: nat, c: nat)
    requires i < |fs.inodes|
  {
    c != 0 && exists s :: 0 <= s < SLOTS && Ref(fs, i, s) == c
  }

  ghost function Disown(own: map<nat, Slot>, i: nat): map<nat, Slot> {
    map b | b in own && own[b].inum != i :: own[b]
  }

  /** From fs, the blocks in slots gone of inode i have been freed; only the bit map and the inodes differ. */
  ghost predicate Freed(sb: Super, fs: Fs, gs: Fs, own: map<nat, Slot>, i: nat, gone: set<nat>)
    requires WellFormed(sb, fs) && WellFormed(sb, gs)
  {
    && (forall c :: sb.DataStart() <= c < sb.size ==> gs.blocks[c] == fs.blocks[c])
    && (forall c :: 0 <= c < sb.size ==>
          (Used(sb, gs, c) <==> c < sb.DataStart() || (c in own && !(own[c].inum == i && own[c].index in gone))))
  }

  lemma FreedNone(sb: Super, fs: Fs, own: map<nat, Slot>, i: nat)
    requires WellFormed(sb, fs) && Owned(sb, fs, own)
    ensures Freed(sb, fs, fs, own, i, {})
  {
    hide Used;
  }

  lemma FreeIsUsed(sb: Super, fs: Fs, gs: Fs, own: map<nat, Slot>, i: nat, gone: set<nat>, s: nat)
    requires WellFormed(sb, fs) && WellFormed(sb, gs) && Owned(sb, fs, own) && Freed(sb, fs, gs, own, i, gone)
    requires ValidSlot(fs, i, s) && Ref(fs, i, s) != 0 && s !in gone
    ensures Ref(fs, i, s) < sb.size && Used(sb, gs, Ref(fs, i, s))
  {
    hide Used, Ref;
  }

  lemma FreedOne(sb: Super, fs: Fs, gs: Fs, own: map<nat, Slot>, i: nat, gone: set<nat>, s: nat)
    requires WellFormed(sb, fs) && WellFormed(sb, gs) && Owned(sb, fs, own) && Freed(sb, fs, gs, own, i, gone)
    requires ValidSlot(fs, i, s) && Ref(fs, i, s) != 0 && Ref(fs, i, s) < sb.size
    ensures Freed(sb, fs, MarkFree(sb, gs, Ref(fs, i, s)), own, i, gone + {s})
  {
    hide Used, Ref, ClearBit;
    var b := Ref(fs, i, s);
    var hs := MarkFree(sb, gs, b);
    BBlockInRange(sb, b);
    forall c | 0 <= c < sb.size
      ensures Used(sb, hs, c) <==> c < sb.DataStart() || (c in own && !(own[c].inum == i && own[c].index in gone + {s}))
    {
      MarkFreeBits(sb, gs, b, c);
    }
  }

  lemma FreedEmpty(sb: Super, fs: Fs, gs: Fs, own: map<nat, Slot>, i: nat, gone: set<nat>, s: nat)
    requires WellFormed(sb, fs) && WellFormed(sb, gs) && Owned(sb, fs, own) && Freed(sb, fs, gs, own, i, gone)
    requires ValidSlot(fs, i, s) && Ref(fs, i, s) == 0
    ensures Freed(sb, fs, gs, own, i, gone + {s})
  {
    hide Used, Ref;
  }

  lemma FreedInodes(sb: Super, fs: Fs, gs: Fs, inodes: seq<Inode>, own: map<nat, Slot>, i: nat, gone: set<nat>)
    requires WellFormed(sb, fs) && WellFormed(sb, gs) && Freed(sb, fs, gs, own, i, gone) && |inodes| == sb.ninodes
    ensures Freed(sb, fs, Fs(gs.blocks, inodes), own, i, gone)
  {
    hide Bit;
    forall c | 0 <= c < sb.size
      ensures Used(sb, Fs(gs.blocks, inodes), c) == Used(sb, gs, c)
    {
    }
  }

  lemma IndirectStays(sb: Super, fs: Fs, gs: Fs, own: map<nat, Slot>, i: nat, gone: set<nat>)
    requires WellFormed(sb, fs) && WellFormed(sb, gs) && Owned(sb, fs, own) && Freed(sb, fs, gs, own, i, gone)
    requires i < |fs.inodes| && fs.inodes[i].addrs[NDIRECT] != 0
    ensures fs.inodes[i].addrs[NDIRECT] < sb.size
    ensures gs.blocks[fs.inodes[i].addrs[NDIRECT]] == fs.blocks[fs.inodes[i].addrs[NDIRECT]]
  {
    hide Used;
    IndirectIsOwned(sb, fs, own, i);
  }

  /** With all the slots of inode i freed and cleared, ownership holds without them. */
  lemma FreedAll(sb: Super, fs: Fs, gs: Fs, own: map<nat, Slot>, i: nat, gone: set<nat>)
    requires WellFormed(sb, fs) && WellFormed(sb, gs) && Owned(sb, fs, own) && i < sb.ninodes && SizesOk(fs)
    requires Freed(sb, fs, gs, own, i, gone) && gs.inodes == fs.inodes[i := Inode(0, NO_ADDRS)]
    requires forall s :: 0 <= s < SLOTS ==> s in gone || Ref(fs, i, s) == 0
    ensures Owned(sb, gs, Disown(own, i)) && SizesOk(gs)
    ensures forall c :: 0 <= c < sb.size ==> (Used(sb, gs, c) <==> Used(sb, fs, c) && !Holds(fs, i, c))
    ensures forall j :: 0 <= j < sb.ninodes && j != i ==> FileBytes(sb, gs, j) == FileBytes(sb, fs, j)
  {
    hide Used, Word;
    FreedRefs(sb, fs, gs, own, i, gone);
    hide Ref;
    forall c | c in own
      ensures own[c].inum == i <==> Holds(fs, i, c)
    {
      OwnerHolds(sb, fs, own, i, c);
    }
    forall c | 0 <= c < sb.size && c !in own
      ensures !Holds(fs, i, c)
    {
      NotOwnedNotHeld(sb, fs, own, i, c);
    }
    hide Holds;
    assert SlotsOwn(sb, gs, Disown(own, i)) by {
      forall j, s | ValidSlot(gs, j, s) && Ref(gs, j, s) != 0
        ensures Ref(gs, j, s) in Disown(own, i) && Disown(own, i)[Ref(gs, j, s)] == Slot(j, s)
      {
        assert ValidSlot(fs, j, s);
      }
    }
    forall j | 0 <= j < sb.ninodes && j != i
      ensures FileBytes(sb, gs, j) == FileBytes(sb, fs, j)
    {
      FreedFile(sb, fs, gs, own, i, gone, j);
    }
  }

  lemma FreedRefs(sb: Super, fs: Fs, gs: Fs, own: map<nat, Slot>, i: nat, gone: set<nat>)
    requires WellFormed(sb, fs) && WellFormed(sb, gs) && Owned(sb, fs, own) && i < sb.ninodes
    requires Freed(sb, fs, gs, own, i, gone) && gs.inodes == fs.inodes[i := Inode(0, NO_ADDRS)]
    ensures forall j, s :: ValidSlot(fs, j, s) ==> Ref(gs, j, s) == if j == i then 0 else Ref(fs, j, s)
  {
    hide Used, Word;
    forall j, s | ValidSlot(fs, j, s)
      ensures Ref(gs, j, s) == if j == i then 0 else Ref(fs, j, s)
    {
      IndirectIsOwned(sb, fs, own, j);
    }
  }

  lemma OwnerHolds(sb: Super, fs: Fs, own: map<nat, Slot>, i: nat, c: nat)
    requires WellFormed(sb, fs) && Owned(sb, fs, own) && i < sb.ninodes && c in own
    ensures own[c].inum == i <==> Holds(fs, i, c)
  {
    hide Used, Ref;
    if Holds(fs, i, c) {
      var s :| 0 <= s < SLOTS && Ref(fs, i, s) == c;
      assert ValidSlot(fs, i, s);
    }
  }

  lemma NotOwnedNotHeld(sb: Super, fs: Fs, own: map<nat, Slot>, i: nat, c: nat)
    requires WellFormed(sb, fs) && Owned(sb, fs, own) && i < sb.ninodes && c !in own
    ensures !Holds(fs, i, c)
  {
    hide Used, Ref;
    assert forall s :: 0 <= s < SLOTS ==> ValidSlot(fs, i, s) && Ref(fs, i, s) == Ref(fs, i, s);
  }

  lemma FreedFile(sb: Super, fs: Fs, gs: Fs, own: map<nat, Slot>, i: nat, gone: set<nat>, j: nat)
    requires WellFormed(sb, fs) && WellFormed(sb, gs) && Owned(sb, fs, own) && SizesOk(fs)
    requires i < sb.ninodes && j < sb.ninodes && j != i
    requires Freed(sb, fs, gs, own, i, gone) && gs.inodes == fs.inodes[i := Inode(0, NO_ADDRS)]
    ensures FileBytes(sb, gs, j) == FileBytes(sb, fs, j)
  {
    hide Used, Word, Ref;
    FreedRefs(sb, fs, gs, own, i, gone);
    forall bn | 0 <= bn < MAXFILE
      ensures Content(sb, gs, j, bn) == Content(sb, fs, j, bn)
    {
      assert ValidSlot(fs, j, SlotFor(bn));
      if Ref(fs, j, SlotFor(bn)) != 0 {
        MappedIsOwned(sb, fs, own, j, SlotFor(bn));
      }
    }
    SameBytes(sb, fs, gs, j);
  }

  // ----- writei's loop

  /** Slots in use are kept; slots of other inodes do not change. */
  ghost predicate Extends(fs: Fs, gs: Fs, i: nat) {
    && |gs.inodes| == |fs.inodes|
    && (forall j, t :: ValidSlot(fs, j, t) && (j != i || Ref(fs, j, t) != 0) ==> Ref(gs, j, t) == Ref(fs, j, t))
  }

  /** The state after the loop of writei has copied data, before the size is updated. */
  ghost predicate WriteSoFar(sb: Super, fs: Fs, gs: Fs, i: nat, off: nat, data: seq<byte>)
    requires WellFormed(sb, fs) && WellFormed(sb, gs) && i < sb.ninodes
  {
    && Overwrites(sb, fs, gs, i, off, data) && OnlyAddrs(fs, gs, i) && Extends(fs, gs, i)
    && (forall bn :: off / BSIZE <= bn < MAXFILE && bn * BSIZE < off + |data| && |data| > 0 ==>
        Ref(gs, i, SlotFor(bn)) != 0)
  }

  /** writei's loop invariant after tot bytes: contents, and what has been logged. */
  ghost predicate WriteInv(sb: Super, fs: Fs, gs: Fs, i: nat, off: nat, src: seq<byte>, tot: nat,
                           start: set<nat>, logged: set<nat>, t: Tally)
    requires WellFormed(sb, fs) && WellFormed(sb, gs) && i < sb.ninodes && tot <= |src|
  {
    && WriteSoFar(sb, fs, gs, i, off, src[..tot])
    && TallyAt(t.count, off, tot, |src|)
    && (NoHoles(fs, i) ==> WithinBudget(sb, fs, gs, i, off, start, logged, t))
  }

  lemma WriteInvStarts(sb: Super, fs: Fs, own: map<nat, Slot>, i: nat, off: nat, src: seq<byte>, logged: set<nat>)
    requires WellFormed(sb, fs) && i < sb.ninodes
    ensures WriteInv(sb, fs, fs, i, off, src, 0, logged, logged, Tally({}, {}, 0))
  {
    hide WriteSoFar, WithinBudget, NoHoles;
    WriteStarts(sb, fs, own, i, off, logged);
    assert src[..0] == [];
  }

  lemma MappedBlock(sb: Super, ms: Fs, gs: Fs, i: nat, bn: nat, b: nat)
    requires Maps(sb, ms, gs, i, bn, b)
    ensures b < |gs.blocks| && |gs.inodes| == |ms.inodes|
    ensures SizesOk(ms) ==> SizesOk(gs)
  {
    hide SameContents, OnlyFills;
  }

  lemma OwnedHasSlots(sb: Super, fs: Fs, own: map<nat, Slot>)
    requires WellFormed(sb, fs) && Owned(sb, fs, own)
    ensures Slots(sb, fs, own)
  {
    hide OwnersHold, SlotsOwn, BitmapAgrees;
  }

  lemma WriteInvStep(sb: Super, fs: Fs, ms: Fs, mid: Fs, gs: Fs, own: map<nat, Slot>, i: nat, off: nat,
                     src: seq<byte>, tot: nat, m: nat, b: nat, bm: set<nat>,
                     start: set<nat>, before: set<nat>, logged: set<nat>, t: Tally)
    requires WellFormed(sb, fs) && WellFormed(sb, ms) && i < sb.ninodes && SizesOk(fs)
    requires tot < |src| && off + |src| <= MAXFILE * BSIZE && off <= fs.inodes[i].size
    requires m == ChunkLen(off + tot, |src| - tot)
    requires WriteInv(sb, fs, ms, i, off, src, tot, start, before, t)
    requires Maps(sb, ms, mid, i, (off + tot) / BSIZE, b) && Owned(sb, mid, own)
    requires |bm| <= Need(ms, i, (off + tot) / BSIZE) && bm <= BitmapBlocks(sb)
    requires gs == PutBlock(mid, b, Overlay(mid.blocks[b], (off + tot) % BSIZE, src[tot..tot + m]))
    requires logged <= before + bm + {b}
                       + if (off + tot) / BSIZE >= NDIRECT then {gs.inodes[i].addrs[NDIRECT] as nat} else {}
    ensures WellFormed(sb, gs) && Owned(sb, gs, own)
    ensures WriteInv(sb, fs, gs, i, off, src, tot + m, start, logged,
                     Tally(t.data + {b}, t.bitmap + bm, t.count + 1))
  {
    hide OwnersHold, SlotsOwn, BitmapAgrees, Slots, WriteSoFar, WithinBudget, NoHoles, Overlay, Need, Ref, ChunkLen,
         BitmapBlocks;
    OwnedHasSlots(sb, mid, own);
    var data := Overlay(mid.blocks[b], (off + tot) % BSIZE, src[tot..tot + m]);
    DataWriteKeeps(sb, mid, own, i, (off + tot) / BSIZE, data);
    assert WellFormed(sb, gs) && Owned(sb, gs, own);
    hide Maps, Owned;
    WriteStep(sb, fs, ms, mid, gs, own, i, off, src, tot, m, b);
    TallyStep(t.count, off, tot, |src|, m);
    if NoHoles(fs, i) {
      MapIndirect(sb, ms, mid, i, (off + tot) / BSIZE, b);
      BudgetStep(sb, fs, ms, gs, i, off, start, before, logged, t, bm, b, (off + tot) / BSIZE);
    }
  }

  lemma WriteInvEnds(sb: Super, fs: Fs, gs: Fs, own: map<nat, Slot>, i: nat, off: nat, src: seq<byte>,
                     start: set<nat>, logged: set<nat>, t: Tally)
    requires WellFormed(sb, fs) && WellFormed(sb, gs) && i < sb.ninodes && Owned(sb, gs, own) && SizesOk(fs)
    requires off <= fs.inodes[i].size && off + |src| <= MAXFILE * BSIZE
    requires WriteInv(sb, fs, gs, i, off, src, |src|, start, logged, t)
    ensures gs.inodes[i].size == fs.inodes[i].size
    ensures var size := if off + |src| > gs.inodes[i].size then off + |src| else gs.inodes[i].size;
            var hs := gs.(inodes := gs.inodes[i := gs.inodes[i].(size := size)]);
            WellFormed(sb, hs) && SizesOk(hs) && WriteDone(sb, fs, hs, i, off, src) && Owned(sb, hs, own)
    ensures off + |src| <= gs.inodes[i].size ==> SizesOk(gs) && WriteDone(sb, fs, gs, i, off, src)
    ensures NoHoles(fs, i) ==> |logged + {sb.IBlock(i)} - start| <= WriteBudget(sb, off, |src|)
  {
    hide WriteSoFar, WithinBudget, NoHoles, FileBytes, Owned;
    assert src[..|src|] == src;
    WriteEnds(sb, fs, gs, i, off, src);
    SizeOnlyOwned(sb, gs, own, i, if off + |src| > gs.inodes[i].size then off + |src| else gs.inodes[i].size);
    assert gs.(inodes := gs.inodes[i := gs.inodes[i].(size := gs.inodes[i].size)]) == gs;
    if NoHoles(fs, i) {
      BudgetEnds(sb, fs, gs, i, off, start, logged, t, sb.IBlock(i));
    }
  }

  /** What a successful writei leaves. */
  ghost predicate WriteDone(sb: Super, fs: Fs, gs: Fs, i: nat, off: nat, src: seq<byte>)
    requires WellFormed(sb, fs) && SizesOk(fs) && i < sb.ninodes && off <= fs.inodes[i].size
  {
    && WellFormed(sb, gs) && SizesOk(gs)
    && FileBytes(sb, gs, i) == Splice(FileBytes(sb, fs, i), off, src)
    && (forall j :: 0 <= j < sb.ninodes && j != i ==>
          gs.inodes[j] == fs.inodes[j] && FileBytes(sb, gs, j) == FileBytes(sb, fs, j))
    && (forall j :: NoHoles(fs, j) ==> NoHoles(gs, j))
  }

  lemma PosInRange(off: nat, tot: nat, n: nat)
    requires tot < n && off + n <= MAXFILE * BSIZE
    ensures (off + tot) / BSIZE < MAXFILE
  {
  }

  lemma MapExtends(sb: Super, fs: Fs, ms: Fs, gs: Fs, i: nat, bn: nat, b: nat)
    requires WellFormed(sb, fs) && Extends(fs, ms, i) && Maps(sb, ms, gs, i, bn, b) && |fs.inodes| == sb.ninodes
    ensures Extends(fs, gs, i)
  {
    hide Ref, SameContents;
  }

  lemma WriteStep(sb: Super, fs: Fs, ms: Fs, mid: Fs, gs: Fs, own: map<nat, Slot>, i: nat, off: nat,
                  src: seq<byte>, tot: nat, m: nat, b: nat)
    requires WellFormed(sb, fs) && WellFormed(sb, ms) && i < sb.ninodes
    requires tot < |src| && 0 < m && tot + m <= |src| && (off + tot) % BSIZE + m <= BSIZE
    requires WriteSoFar(sb, fs, ms, i, off, src[..tot])
    requires Maps(sb, ms, mid, i, (off + tot) / BSIZE, b) && Slots(sb, mid, own)
    requires gs == PutBlock(mid, b, Overlay(mid.blocks[b], (off + tot) % BSIZE, src[tot..tot + m]))
    ensures WellFormed(sb, gs) && Slots(sb, gs, own) && WriteSoFar(sb, fs, gs, i, off, src[..tot + m])
  {
    hide Ref, Content, Overlay, Slots, Overwrites, OnlyFills;
    var pos := off + tot;
    var bn := pos / BSIZE;
    var data := Overlay(mid.blocks[b], pos % BSIZE, src[tot..tot + m]);
    DataWriteSlots(sb, mid, own, i, bn, data);
    MappedContent(sb, mid, i, bn);
    OverwriteThroughMap(sb, fs, ms, mid, i, off, src[..tot]);
    OverwriteStep(sb, fs, mid, gs, i, off, src[..tot], src[tot..tot + m]);
    assert src[..tot] + src[tot..tot + m] == src[..tot + m];
    MapExtends(sb, fs, ms, mid, i, bn, b);
    forall c | off / BSIZE <= c < MAXFILE && c * BSIZE < off + tot + m
      ensures Ref(gs, i, SlotFor(c)) != 0
    {
      if c != bn {
        BelowChunk(off, tot, m, c);
        assert Ref(ms, i, SlotFor(c)) != 0;
        MapFills(sb, ms, mid, i, bn, b, SlotFor(c));
      }
    }
  }

  lemma MapFills(sb: Super, ms: Fs, gs: Fs, i: nat, bn: nat, b: nat, s: nat)
    requires Maps(sb, ms, gs, i, bn, b) && s < SLOTS && Ref(ms, i, s) != 0
    ensures Ref(gs, i, s) == Ref(ms, i, s)
  {
    hide Ref, SameContents;
    assert ValidSlot(ms, i, s);
  }

  lemma BelowChunk(off: nat, tot: nat, m: nat, c: nat)
    requires (off + tot) % BSIZE + m <= BSIZE && off / BSIZE <= c && c * BSIZE < off + tot + m
             && c != (off + tot) / BSIZE
    ensures c * BSIZE < off + tot && tot > 0
  {
  }

  lemma MappedContent(sb: Super, fs: Fs, i: nat, bn: nat)
    requires WellFormed(sb, fs) && i < |fs.inodes| && bn < MAXFILE && 0 < Ref(fs, i, SlotFor(bn)) < sb.size
    ensures Content(sb, fs, i, bn) == fs.blocks[Ref(fs, i, SlotFor(bn))]
  {
  }

  lemma WriteStarts(sb: Super, fs: Fs, own: map<nat, Slot>, i: nat, off: nat, logged: set<nat>)
    requires WellFormed(sb, fs) && i < sb.ninodes
    ensures WriteSoFar(sb, fs, fs, i, off, [])
    ensures WithinBudget(sb, fs, fs, i, off, logged, logged, Tally({}, {}, 0))
  {
    hide Content, Ref;
  }

  lemma WriteEnds(sb: Super, fs: Fs, gs: Fs, i: nat, off: nat, src: seq<byte>)
    requires WellFormed(sb, fs) && WellFormed(sb, gs) && i < sb.ninodes && SizesOk(fs)
    requires WriteSoFar(sb, fs, gs, i, off, src) && off <= fs.inodes[i].size && off + |src| <= MAXFILE * BSIZE
    ensures gs.inodes[i].size == fs.inodes[i].size
    ensures var size := if off + |src| > gs.inodes[i].size then off + |src| else gs.inodes[i].size;
            WriteDone(sb, fs, gs.(inodes := gs.inodes[i := gs.inodes[i].(size := size)]), i, off, src)
  {
    hide Ref, Content, NoHoles, Splice;
    assert gs.inodes[i].size == fs.inodes[i].size;
    var size := if off + |src| > gs.inodes[i].size then off + |src| else gs.inodes[i].size;
    var hs := gs.(inodes := gs.inodes[i := gs.inodes[i].(size := size)]);
    SizeOnly(sb, gs, i, size);
    OverwriteThroughMap(sb, fs, gs, hs, i, off, src);
    OverwriteIsSplice(sb, fs, hs, i, off, src);
    forall j | 0 <= j < sb.ninodes && j != i
      ensures hs.inodes[j] == fs.inodes[j] && FileBytes(sb, hs, j) == FileBytes(sb, fs, j)
    {
      SameBytes(sb, fs, hs, j);
    }
    forall j | NoHoles(fs, j)
      ensures NoHoles(hs, j)
    {
      StillNoHoles(sb, fs, gs, hs, i, off, src, j);
    }
  }

  lemma StillNoHoles(sb: Super, fs: Fs, gs: Fs, hs: Fs, i: nat, off: nat, src: seq<byte>, j: nat)
    requires WellFormed(sb, fs) && WellFormed(sb, gs) && WellFormed(sb, hs) && i < sb.ninodes
    requires WriteSoFar(sb, fs, gs, i, off, src) && off <= fs.inodes[i].size && SameRefs(gs, hs)
    requires hs.inodes[i].size == if off + |src| > fs.inodes[i].size then off + |src| else fs.inodes[i].size
    requires j != i ==> j >= sb.ninodes || hs.inodes[j].size == fs.inodes[j].size
    requires NoHoles(fs, j)
    ensures NoHoles(hs, j)
  {
    hide Ref, Overwrites, OnlyAddrs;
    forall bn | 0 <= bn < MAXFILE && bn * BSIZE < hs.inodes[j].size
      ensures Ref(hs, j, SlotFor(bn)) != 0
    {
      assert ValidSlot(gs, j, SlotFor(bn)) && ValidSlot(fs, j, SlotFor(bn));
      if bn * BSIZE < fs.inodes[j].size {
        assert Ref(fs, j, SlotFor(bn)) != 0;
      } else {
        assert off / BSIZE <= bn;
      }
    }
  }

  function WithSize(fs: Fs, i: nat, size: nat): Fs
    requires i < |fs.inodes|
  {
    fs.(inodes := fs.inodes[i := fs.inodes[i].(size := size)])
  }

  /** Slots, contents and ownership do not depend on an inode's size. */
  lemma SizeOnly(sb: Super, fs: Fs, i: nat, size: nat)
    requires WellFormed(sb, fs) && i < |fs.inodes|
    ensures var gs := WithSize(fs, i, size); WellFormed(sb, gs) && SameRefs(fs, gs) && SameContents(sb, fs, gs)
  {
    hide Word;
    var gs := WithSize(fs, i, size);
    forall j, t | ValidSlot(fs, j, t)
      ensures Ref(gs, j, t) == Ref(fs, j, t)
    {
    }
    hide Ref;
    forall j, bn | 0 <= j < sb.ninodes && 0 <= bn < MAXFILE
      ensures Content(sb, gs, j, bn) == Content(sb, fs, j, bn)
    {
      assert ValidSlot(fs, j, SlotFor(bn));
    }
  }

  lemma SizeOnlySlots(sb: Super, fs: Fs, own: map<nat, Slot>, i: nat, size: nat)
    requires WellFormed(sb, fs) && i < |fs.inodes| && Slots(sb, fs, own)
    ensures WellFormed(sb, WithSize(fs, i, size)) && Slots(sb, WithSize(fs, i, size), own)
  {
    hide Ref, Content;
    var gs := WithSize(fs, i, size);
    SizeOnly(sb, fs, i, size);
    forall j, t | ValidSlot(gs, j, t)
      ensures Ref(gs, j, t) == Ref(fs, j, t)
    {
      assert ValidSlot(fs, j, t);
    }
  }

  lemma SizeOnlyOwned(sb: Super, fs: Fs, own: map<nat, Slot>, i: nat, size: nat)
    requires WellFormed(sb, fs) && i < |fs.inodes| && Owned(sb, fs, own)
    ensures WellFormed(sb, WithSize(fs, i, size)) && Owned(sb, WithSize(fs, i, size), own)
  {
    hide OwnersHold, SlotsOwn, Bit;
    SizeOnlySlots(sb, fs, own, i, size);
    assert forall c :: 0 <= c < sb.size ==> Used(sb, WithSize(fs, i, size), c) == Used(sb, fs, c);
  }

  // ----- counting what writei logs

  /** Data blocks and bit map blocks logged so far, and blocks written so far. */
  datatype Tally = Tally(data: set<nat>, bitmap: set<nat>, count: nat)

  ghost predicate WithinBudget(sb: Super, fs: Fs, gs: Fs, i: nat, off: nat, before: set<nat>, logged: set<nat>,
                               t: Tally)
    requires i < |fs.inodes| && i < |gs.inodes|
  {
    var ind0, ind := fs.inodes[i].addrs[NDIRECT], gs.inodes[i].addrs[NDIRECT];
    && logged <= before + t.data + t.bitmap + {ind}
    && |t.data| <= t.count
    && t.bitmap <= BitmapBlocks(sb)
    && |t.bitmap| <= FreshAllowed(off, t.count) + (if ind0 == 0 && ind != 0 then 1 else 0)
    && (ind0 != 0 ==> ind == ind0)
    && (ind == 0 ==> logged <= before + t.data + t.bitmap)
    && (t.count == 0 ==> gs == fs)
  }

  /** count is the number of blocks that the first tot of n bytes at off touch. */
  predicate TallyAt(count: nat, off: nat, tot: nat, n: nat) {
    && (tot < n ==> (off + tot) / BSIZE == off / BSIZE + count && (count > 0 ==> (off + tot) % BSIZE == 0))
    && (tot >= n ==> count == Touched(off, n))
    && (count == 0 ==> tot == 0)
  }

  lemma TallyStep(count: nat, off: nat, tot: nat, n: nat, m: nat)
    requires tot < n && TallyAt(count, off, tot, n)
    requires m == ChunkLen(off + tot, n - tot)
    ensures TallyAt(count + 1, off, tot + m, n)
  {
  }

  lemma CardinalSum(s: set<nat>, a: set<nat>, b: set<nat>)
    requires s <= a + b
    ensures |s| <= |a| + |b|
  {
    CardinalSubset(s, a + b);
  }

  lemma CardinalSubset(s: set<nat>, t: set<nat>)
    requires s <= t
    ensures |s| <= |t|
  {
    assert t == s + (t - s);
  }

  /** After bmap the indirect pointer is set if it was needed, and unchanged if it was set. */
  lemma MapIndirect(sb: Super, ms: Fs, gs: Fs, i: nat, bn: nat, b: nat)
    requires Maps(sb, ms, gs, i, bn, b)
    ensures bn >= NDIRECT ==> gs.inodes[i].addrs[NDIRECT] != 0
    ensures ms.inodes[i].addrs[NDIRECT] != 0 ==> gs.inodes[i].addrs[NDIRECT] == ms.inodes[i].addrs[NDIRECT]
  {
    hide SameContents, Word;
    assert ValidSlot(ms, i, NDIRECT) && Ref(ms, i, NDIRECT) == ms.inodes[i].addrs[NDIRECT];
    assert Ref(gs, i, NDIRECT) == gs.inodes[i].addrs[NDIRECT];
  }

  /** A write that starts inside a block, at or before the end of a file without holes, finds that block mapped. */
  lemma FirstBlockMapped(fs: Fs, i: nat, off: nat)
    requires NoHoles(fs, i) && off <= fs.inodes[i].size && off < MAXFILE * BSIZE
    ensures off % BSIZE != 0 ==> Need(fs, i, off / BSIZE) == 0
  {
  }

  lemma BudgetStep(sb: Super, fs: Fs, ms: Fs, gs: Fs, i: nat, off: nat, start: set<nat>, before: set<nat>,
                   logged: set<nat>, t: Tally, bm: set<nat>, b: nat, bn: nat)
    requires i < |fs.inodes| && i < |ms.inodes| && i < |gs.inodes| && bn < MAXFILE
    requires WithinBudget(sb, fs, ms, i, off, start, before, t)
    requires |bm| <= Need(ms, i, bn) && bm <= BitmapBlocks(sb)
    requires logged <= before + bm + {b} + if bn >= NDIRECT then {gs.inodes[i].addrs[NDIRECT] as nat} else {}
    requires bn >= NDIRECT ==> gs.inodes[i].addrs[NDIRECT] != 0
    requires ms.inodes[i].addrs[NDIRECT] != 0 ==> gs.inodes[i].addrs[NDIRECT] == ms.inodes[i].addrs[NDIRECT]
    requires NoHoles(fs, i) && off <= fs.inodes[i].size && off < MAXFILE * BSIZE && (t.count == 0 ==> bn == off / BSIZE)
    ensures WithinBudget(sb, fs, gs, i, off, start, logged, Tally(t.data + {b}, t.bitmap + bm, t.count + 1))
  {
    hide Ref, NoHoles, BitmapBlocks;
    FirstBlockMapped(fs, i, off);
    CardinalSum(t.bitmap + bm, t.bitmap, bm);
    CardinalSum(t.data + {b}, t.data, {b});
  }

  lemma BudgetEnds(sb: Super, fs: Fs, gs: Fs, i: nat, off: nat, start: set<nat>, logged: set<nat>, t: Tally, ib: nat)
    requires i < |fs.inodes| && i < |gs.inodes|
    requires WithinBudget(sb, fs, gs, i, off, start, logged, t)
    ensures |logged + {ib} - start| <= t.count + 2 + Min(FreshAllowed(off, t.count) + 1, sb.Bitmaps())
  {
    var ind := gs.inodes[i].addrs[NDIRECT];
    var a := t.data + t.bitmap;
    CardinalSubset(t.bitmap, BitmapBlocks(sb));
    hide Interval;
    CardinalSum(a, t.data, t.bitmap);
    if t.count == 0 {
      assert a == {};
      CardinalSum(logged + {ib} - start, a + {ib}, {ind as nat});
    } else {
      CardinalSum(a + {ib}, a, {ib});
      CardinalSum(logged + {ib} - start, a + {ib}, {ind as nat});
    }
  }

  lemma SameContentsRefl(sb: Super, fs: Fs, i: nat)
    requires WellFormed(sb, fs)
    ensures SameContents(sb, fs, fs) && OnlyAddrs(fs, fs, i)
  {
    hide Content;
  }

  /** A bmap after states with the same contents leaves the same contents. */
  lemma MapsKeeps(sb: Super, fs: Fs, ms: Fs, gs: Fs, i: nat, bn: nat, b: nat)
    requires WellFormed(sb, fs) && WellFormed(sb, ms) && SameContents(sb, fs, ms) && OnlyAddrs(fs, ms, i)
    requires Maps(sb, ms, gs, i, bn, b)
    ensures SameContents(sb, fs, gs) && OnlyAddrs(fs, gs, i) && gs.inodes[i].size == fs.inodes[i].size
  {
    hide Content, OnlyFills;
  }

  lemma MappedNeedsNothing(sb: Super, fs: Fs, i: nat, pos: nat)
    requires WellFormed(sb, fs) && i < |fs.inodes| && pos < fs.inodes[i].size <= MAXFILE * BSIZE
    ensures pos / BSIZE < MAXFILE
    ensures NoHoles(fs, i) ==> Need(fs, i, pos / BSIZE) == 0
  {
  }

  /** The bytes readi copies out of one block are the file's. */
  lemma ReadChunk(sb: Super, fs: Fs, ms: Fs, gs: Fs, i: nat, pos: nat, len: nat, b: nat)
    requires WellFormed(sb, fs) && WellFormed(sb, gs) && i < sb.ninodes && SameContents(sb, fs, gs)
    requires pos + len <= fs.inodes[i].size <= MAXFILE * BSIZE && pos % BSIZE + len <= BSIZE && pos / BSIZE < MAXFILE
    requires Maps(sb, ms, gs, i, pos / BSIZE, b)
    ensures b < sb.size
    ensures gs.blocks[b].bytes[pos % BSIZE..pos % BSIZE + len] == FileBytes(sb, fs, i)[pos..pos + len]
  {
    hide OnlyFills, OnlyAddrs, Ref;
    var bn := pos / BSIZE;
    MappedContent(sb, gs, i, bn);
    assert Content(sb, fs, i, bn) == gs.blocks[b];
    hide Content, SameContents, Maps;
    var start := pos - pos % BSIZE;
    forall k | pos % BSIZE <= k < pos % BSIZE + len
      ensures gs.blocks[b].bytes[k] == FileBytes(sb, fs, i)[start + k]
    {
      WithinBlock(pos, k);
    }
  }

  lemma WithinBlock(pos: nat, k: nat)
    requires k < BSIZE
    ensures (pos - pos % BSIZE + k) / BSIZE == pos / BSIZE && (pos - pos % BSIZE + k) % BSIZE == k
  {
  }
}
