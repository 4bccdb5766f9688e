/**
 The block layer of kernel/fs.c as a value: the contents of every block, the
 inodes, the free bit map, and which inode slot each allocated block belongs to.
 */
module FileSystem {
  import opened Blocks
  import opened Common

  const NDIRECT: nat := 12
  const NINDIRECT: nat := WORDS
  const MAXFILE: nat := NDIRECT + NINDIRECT
  /** Inodes per block: BSIZE / sizeof(struct dinode). */
  const IPB: nat := 16

  /** Slots of an inode that can hold a block number: the direct ones, the indirect pointer, the indirect entries. */
  const SLOTS: nat := NDIRECT + 1 + NINDIRECT

  type Addrs = a: seq<word> | |a| == NDIRECT + 1 witness [0, 0, 0, 0, 0, 0, 0, 0, 0, 0, 0, 0, 0]

  datatype Inode = Inode(size: nat, addrs: Addrs)

  const NO_ADDRS: Addrs := [0, 0, 0, 0, 0, 0, 0, 0, 0, 0, 0, 0, 0]

  /** The superblock fields the block layer uses; data blocks follow the bit map. */
  datatype Super = Super(size: nat, ninodes: nat, inodestart: nat, bmapstart: nat) {
    /** The number of bit map blocks. */
    function Bitmaps(): nat {
      size / BPB + 1
    }

    function DataStart(): nat {
      bmapstart + Bitmaps()
    }

    ghost predicate Valid() {
      && 0 < inodestart
      && inodestart + ninodes / IPB + 1 <= bmapstart
      && DataStart() <= size < WORD_LIMIT
    }

    function BBlock(b: nat): nat {
      b / BPB + bmapstart
    }

    function IBlock(i: nat): nat {
      i / IPB + inodestart
    }
  }

  datatype Fs = Fs(blocks: seq<Block>, inodes: seq<Inode>)

  datatype Slot = Slot(inum: nat, index: nat)

  ghost predicate WellFormed(sb: Super, fs: Fs) {
    sb.Valid() && |fs.blocks| == sb.size && |fs.inodes| == sb.ninodes
  }

  ghost predicate ValidSlot(fs: Fs, i: nat, s: nat) {
    i < |fs.inodes| && s < SLOTS
  }

  /** The block number in slot s of an inode, 0 if none. */
  function SlotOf(blocks: seq<Block>, a: Addrs, s: nat): word
    requires s < SLOTS
  {
    if s <= NDIRECT then a[s]
    else if a[NDIRECT] == 0 || a[NDIRECT] >= |blocks| then 0
    else Word(blocks[a[NDIRECT]], s - NDIRECT - 1)
  }

  function Ref(fs: Fs, i: nat, s: nat): word
    requires ValidSlot(fs, i, s)
  {
    SlotOf(fs.blocks, fs.inodes[i].addrs, s)
  }

  /** The slot that holds file block bn. */
  function SlotFor(bn: nat): (s: nat)
    requires bn < MAXFILE
    ensures s < SLOTS && s != NDIRECT
  {
    if bn < NDIRECT then bn else bn + 1
  }

  predicate Used(sb: Super, fs: Fs, b: nat)
    requires WellFormed(sb, fs) && b < sb.size
  {
    Bit(fs.blocks[sb.BBlock(b)], b % BPB)
  }

  // ----- what files hold

  function BlockAt(blocks: seq<Block>, b: nat): Block {
    if b == 0 || b >= |blocks| then ZERO_BLOCK else blocks[b]
  }

  /** Contents of file block bn; an unmapped block reads as zeros. */
  function Content(sb: Super, fs: Fs, i: nat, bn: nat): Block
    requires WellFormed(sb, fs) && i < |fs.inodes| && bn < MAXFILE
  {
    BlockAt(fs.blocks, Ref(fs, i, SlotFor(bn)))
  }

  function ByteAt(sb: Super, fs: Fs, i: nat, off: nat): byte
    requires WellFormed(sb, fs) && i < |fs.inodes| && off < MAXFILE * BSIZE
  {
    Content(sb, fs, i, off / BSIZE).bytes[off % BSIZE]
  }

  /** The file as a plain byte sequence. */
  function FileBytes(sb: Super, fs: Fs, i: nat): (r: seq<byte>)
    requires WellFormed(sb, fs) && i < |fs.inodes| && fs.inodes[i].size <= MAXFILE * BSIZE
    ensures |r| == fs.inodes[i].size
  {
    seq(fs.inodes[i].size, k requires 0 <= k < fs.inodes[i].size => ByteAt(sb, fs, i, k))
  }

  /** Every file reads the same in both states. */
  ghost predicate SameContents(sb: Super, fs: Fs, gs: Fs)
    requires WellFormed(sb, fs) && WellFormed(sb, gs)
  {
    forall i, bn :: 0 <= i < sb.ninodes && 0 <= bn < MAXFILE ==> Content(sb, gs, i, bn) == Content(sb, fs, i, bn)
  }

  // ----- ownership

  /** Every owned block is in the data area and sits in the slot that owns it. */
  ghost predicate OwnersHold(sb: Super, fs: Fs, own: map<nat, Slot>)
    requires WellFormed(sb, fs)
  {
    forall b :: b in own ==>
      && sb.DataStart() <= b < sb.size
      && ValidSlot(fs, own[b].inum, own[b].index)
      && Ref(fs, own[b].inum, own[b].index) == b
  }

  /** Every slot in use owns its block. */
  ghost predicate SlotsOwn(sb: Super, fs: Fs, own: map<nat, Slot>)
    requires WellFormed(sb, fs)
  {
    forall i, s :: ValidSlot(fs, i, s) && Ref(fs, i, s) != 0 ==>
      Ref(fs, i, s) in own && own[Ref(fs, i, s)] == Slot(i, s)
  }

  /** The bit map marks exactly the metadata and the owned blocks. */
  ghost predicate BitmapAgrees(sb: Super, fs: Fs, own: map<nat, Slot>)
    requires WellFormed(sb, fs)
  {
    forall b :: 0 <= b < sb.size ==> (Used(sb, fs, b) <==> b < sb.DataStart() || b in own)
  }

  ghost predicate Owned(sb: Super, fs: Fs, own: map<nat, Slot>)
    requires WellFormed(sb, fs)
  {
    OwnersHold(sb, fs, own) && SlotsOwn(sb, fs, own) && BitmapAgrees(sb, fs, own)
  }

  /**
   Block ownership: every data block marked in the bit map is held by exactly one slot of
   one inode, and every block a slot holds is a data block marked in the bit map.
   */
  lemma ExactlyOneOwner(sb: Super, fs: Fs, own: map<nat, Slot>)
    requires WellFormed(sb, fs) && Owned(sb, fs, own)
    ensures forall b :: sb.DataStart() <= b < sb.size && Used(sb, fs, b) ==>
              exists i, s :: ValidSlot(fs, i, s) && Ref(fs, i, s) == b
    ensures forall i, s, j, t ::
              (ValidSlot(fs, i, s) && ValidSlot(fs, j, t) && Ref(fs, i, s) == Ref(fs, j, t) != 0) ==> i == j && s == t
    ensures forall i, s :: ValidSlot(fs, i, s) && Ref(fs, i, s) != 0 ==>
              sb.DataStart() <= Ref(fs, i, s) < sb.size && Used(sb, fs, Ref(fs, i, s))
  {
    hide Used, Ref;
    forall b | sb.DataStart() <= b < sb.size && Used(sb, fs, b)
      ensures exists i, s :: ValidSlot(fs, i, s) && Ref(fs, i, s) == b
    {
      assert ValidSlot(fs, own[b].inum, own[b].index) && Ref(fs, own[b].inum, own[b].index) == b;
    }
  }

  // ----- the block layer's updates

  /** Block b marked in use in the bit map. */
  function MarkUsed(sb: Super, fs: Fs, b: nat): (r: Fs)
    requires WellFormed(sb, fs) && b < sb.size
    ensures WellFormed(sb, r)
  {
    BBlockInRange(sb, b);
    fs.(blocks := fs.blocks[sb.BBlock(b) := SetBit(fs.blocks[sb.BBlock(b)], b % BPB)])
  }

  /** Block b marked free in the bit map. */
  function MarkFree(sb: Super, fs: Fs, b: nat): (r: Fs)
    requires WellFormed(sb, fs) && b < sb.size
    ensures WellFormed(sb, r)
  {
    BBlockInRange(sb, b);
    fs.(blocks := fs.blocks[sb.BBlock(b) := ClearBit(fs.blocks[sb.BBlock(b)], b % BPB)])
  }

  /** The state after balloc has handed out block b: marked and zeroed. */
  function Alloc(sb: Super, fs: Fs, b: nat): (r: Fs)
    requires WellFormed(sb, fs) && b < sb.size
    ensures WellFormed(sb, r)
  {
    var m := MarkUsed(sb, fs, b);
    m.(blocks := m.blocks[b := ZERO_BLOCK])
  }

  /** Store block number b in slot s of inode i. */
  function PutSlot(fs: Fs, i: nat, s: nat, b: word): (r: Fs)
    requires ValidSlot(fs, i, s)
    requires s > NDIRECT ==> fs.inodes[i].addrs[NDIRECT] < |fs.blocks|
    ensures |r.blocks| == |fs.blocks| && |r.inodes| == |fs.inodes|
  {
    if s <= NDIRECT then
      fs.(inodes := fs.inodes[i := fs.inodes[i].(addrs := fs.inodes[i].addrs[s := b])])
    else
      var ind := fs.inodes[i].addrs[NDIRECT];
      fs.(blocks := fs.blocks[ind := SetWord(fs.blocks[ind], s - NDIRECT - 1, b)])
  }

  function PutBlock(fs: Fs, b: nat, data: Block): (r: Fs)
    requires b < |fs.blocks|
    ensures |r.blocks| == |fs.blocks| && |r.inodes| == |fs.inodes|
  {
    fs.(blocks := fs.blocks[b := data])
  }

  lemma BBlockInRange(sb: Super, b: nat)
    requires sb.Valid() && b < sb.size
    ensures sb.bmapstart <= sb.BBlock(b) < sb.DataStart() <= sb.size
  {
  }

  lemma SameBit(sb: Super, b: nat, c: nat)
    ensures sb.BBlock(b) == sb.BBlock(c) && b % BPB == c % BPB ==> b == c
  {
  }

  lemma MarkUsedBits(sb: Super, fs: Fs, b: nat, c: nat)
    requires WellFormed(sb, fs) && b < sb.size && c < sb.size
    ensures Used(sb, MarkUsed(sb, fs, b), c) <==> c == b || Used(sb, fs, c)
  {
    hide Bit, SetBit;
    SameBit(sb, b, c);
    BBlockInRange(sb, b);
    BBlockInRange(sb, c);
  }

  lemma MarkFreeBits(sb: Super, fs: Fs, b: nat, c: nat)
    requires WellFormed(sb, fs) && b < sb.size && c < sb.size
    ensures Used(sb, MarkFree(sb, fs, b), c) <==> c != b && Used(sb, fs, c)
  {
    hide Bit, ClearBit;
    SameBit(sb, b, c);
    BBlockInRange(sb, b);
    BBlockInRange(sb, c);
  }

  /** Every slot is the same in both states. */
  ghost predicate SameRefs(fs: Fs, gs: Fs) {
    && |gs.inodes| == |fs.inodes|
    && forall i, s :: ValidSlot(fs, i, s) ==> Ref(gs, i, s) == Ref(fs, i, s)
  }

  ghost predicate Slots(sb: Super, fs: Fs, own: map<nat, Slot>)
    requires WellFormed(sb, fs)
  {
    OwnersHold(sb, fs, own) && SlotsOwn(sb, fs, own)
  }

  lemma IndirectIsOwned(sb: Super, fs: Fs, own: map<nat, Slot>, i: nat)
    requires WellFormed(sb, fs) && Slots(sb, fs, own) && i < |fs.inodes|
    ensures var ind := fs.inodes[i].addrs[NDIRECT];
            ind != 0 ==> ind in own && own[ind] == Slot(i, NDIRECT) && sb.DataStart() <= ind < sb.size
  {
    assert ValidSlot(fs, i, NDIRECT) && Ref(fs, i, NDIRECT) == fs.inodes[i].addrs[NDIRECT];
  }

  lemma MappedIsOwned(sb: Super, fs: Fs, own: map<nat, Slot>, i: nat, s: nat)
    requires WellFormed(sb, fs) && Slots(sb, fs, own) && ValidSlot(fs, i, s) && Ref(fs, i, s) != 0
    ensures var b := Ref(fs, i, s); b in own && own[b] == Slot(i, s) && sb.DataStart() <= b < sb.size
  {
  }

  /** Changing only blocks that no inode owns changes no slot and no file. */
  lemma UnownedWrite(sb: Super, fs: Fs, gs: Fs, own: map<nat, Slot>)
    requires WellFormed(sb, fs) && WellFormed(sb, gs) && Slots(sb, fs, own)
    requires gs.inodes == fs.inodes && forall b :: b in own ==> b < sb.size && gs.blocks[b] == fs.blocks[b]
    ensures SameRefs(fs, gs) && Slots(sb, gs, own) && SameContents(sb, fs, gs)
  {
    hide Word;
    forall i, s | ValidSlot(fs, i, s)
      ensures Ref(gs, i, s) == Ref(fs, i, s)
    {
      IndirectIsOwned(sb, fs, own, i);
    }
    hide Ref;
    forall i, bn | 0 <= i < sb.ninodes && 0 <= bn < MAXFILE
      ensures Content(sb, gs, i, bn) == Content(sb, fs, i, bn)
    {
      assert ValidSlot(fs, i, SlotFor(bn));
    }
  }

  /** balloc: only the free map and the new block change, so no slot and no file does. */
  lemma AllocKeeps(sb: Super, fs: Fs, own: map<nat, Slot>, b: nat)
    requires WellFormed(sb, fs) && Owned(sb, fs, own) && b < sb.size && !Used(sb, fs, b)
    ensures sb.DataStart() <= b && b !in own
    ensures SameRefs(fs, Alloc(sb, fs, b)) && Slots(sb, Alloc(sb, fs, b), own)
    ensures SameContents(sb, fs, Alloc(sb, fs, b))
    ensures forall c :: 0 <= c < sb.size ==> (Used(sb, Alloc(sb, fs, b), c) <==> c == b || Used(sb, fs, c))
  {
    hide Bit, SetBit, Ref, SameContents, SameRefs;
    var gs := Alloc(sb, fs, b);
    BBlockInRange(sb, b);
    UnownedWrite(sb, fs, gs, own);
    forall c | 0 <= c < sb.size
      ensures Used(sb, gs, c) <==> c == b || Used(sb, fs, c)
    {
      MarkUsedBits(sb, fs, b, c);
      BBlockInRange(sb, c);
    }
  }

  /** Storing a block number in an empty slot changes that slot and no other. */
  lemma PutSlotRefs(sb: Super, fs: Fs, own: map<nat, Slot>, i: nat, s: nat, b: word)
    requires WellFormed(sb, fs) && Slots(sb, fs, own) && ValidSlot(fs, i, s) && Ref(fs, i, s) == 0
    requires sb.DataStart() <= b < sb.size && b !in own && fs.blocks[b] == ZERO_BLOCK
    requires s > NDIRECT ==> fs.inodes[i].addrs[NDIRECT] != 0
    ensures var ind := fs.inodes[i].addrs[NDIRECT]; s > NDIRECT ==> ind < |fs.blocks|
    ensures var gs := PutSlot(fs, i, s, b);
            forall j, t :: ValidSlot(fs, j, t) ==> Ref(gs, j, t) == if j == i && t == s then b else Ref(fs, j, t)
  {
    hide Word, SetWord;
    IndirectIsOwned(sb, fs, own, i);
    var gs := PutSlot(fs, i, s, b);
    ZeroBlockWords();
    forall j, t | ValidSlot(fs, j, t)
      ensures Ref(gs, j, t) == if j == i && t == s then b else Ref(fs, j, t)
    {
      IndirectIsOwned(sb, fs, own, j);
    }
  }

  lemma PutSlotKeeps(sb: Super, fs: Fs, own: map<nat, Slot>, i: nat, s: nat, b: word)
    requires WellFormed(sb, fs) && Slots(sb, fs, own) && ValidSlot(fs, i, s) && Ref(fs, i, s) == 0
    requires sb.DataStart() <= b < sb.size && b !in own && fs.blocks[b] == ZERO_BLOCK
    requires s > NDIRECT ==> 0 < fs.inodes[i].addrs[NDIRECT] < |fs.blocks|
    ensures var gs := PutSlot(fs, i, s, b);
            WellFormed(sb, gs) && Slots(sb, gs, own[b := Slot(i, s)]) && SameContents(sb, fs, gs)
  {
    hide Word, SetWord, Ref;
    PutSlotRefs(sb, fs, own, i, s, b);
    IndirectIsOwned(sb, fs, own, i);
    var gs := PutSlot(fs, i, s, b);
    forall j, bn | 0 <= j < sb.ninodes && 0 <= bn < MAXFILE
      ensures Content(sb, gs, j, bn) == Content(sb, fs, j, bn)
    {
      assert ValidSlot(fs, j, SlotFor(bn));
    }
  }

  /** bmap's allocation of slot s: it takes ownership of a free block and changes no file's contents. */
  lemma AllocSlotKeeps(sb: Super, fs: Fs, own: map<nat, Slot>, i: nat, s: nat, b: word)
    requires WellFormed(sb, fs) && Owned(sb, fs, own) && b < sb.size && !Used(sb, fs, b)
    requires ValidSlot(fs, i, s) && Ref(fs, i, s) == 0
    requires s > NDIRECT ==> 0 < fs.inodes[i].addrs[NDIRECT] < |fs.blocks|
    ensures var gs := PutSlot(Alloc(sb, fs, b), i, s, b);
            && WellFormed(sb, gs) && Owned(sb, gs, own[b := Slot(i, s)]) && SameContents(sb, fs, gs)
            && forall j, t :: ValidSlot(fs, j, t) ==> Ref(gs, j, t) == if j == i && t == s then b else Ref(fs, j, t)
  {
    hide Word, SetWord, Ref, Bit, SetBit;
    var ms := Alloc(sb, fs, b);
    AllocKeeps(sb, fs, own, b);
    assert Ref(ms, i, s) == 0;
    PutSlotRefs(sb, ms, own, i, s, b);
    PutSlotKeeps(sb, ms, own, i, s, b);
    var gs := PutSlot(ms, i, s, b);
    IndirectIsOwned(sb, ms, own, i);
    forall c | 0 <= c < sb.size
      ensures Used(sb, gs, c) <==> c < sb.DataStart() || c in own[b := Slot(i, s)]
    {
      BBlockInRange(sb, c);
      assert gs.blocks[sb.BBlock(c)] == ms.blocks[sb.BBlock(c)];
      assert Used(sb, ms, c) <==> c == b || Used(sb, fs, c);
    }
  }

  /** Writing a file's data block changes no slot, and no contents but those of that file block. */
  lemma DataWriteSlots(sb: Super, fs: Fs, own: map<nat, Slot>, i: nat, bn: nat, data: Block)
    requires WellFormed(sb, fs) && Slots(sb, fs, own) && i < |fs.inodes| && bn < MAXFILE
    requires Ref(fs, i, SlotFor(bn)) != 0
    ensures sb.DataStart() <= Ref(fs, i, SlotFor(bn)) < |fs.blocks|
    ensures var gs := PutBlock(fs, Ref(fs, i, SlotFor(bn)), data);
            && WellFormed(sb, gs) && Slots(sb, gs, own) && SameRefs(fs, gs)
            && forall j, m :: 0 <= j < sb.ninodes && 0 <= m < MAXFILE ==>
                 Content(sb, gs, j, m) == if j == i && m == bn then data else Content(sb, fs, j, m)
  {
    hide Word;
    var b := Ref(fs, i, SlotFor(bn));
    MappedIsOwned(sb, fs, own, i, SlotFor(bn));
    var gs := PutBlock(fs, b, data);
    forall j, t | ValidSlot(fs, j, t)
      ensures Ref(gs, j, t) == Ref(fs, j, t)
    {
      IndirectIsOwned(sb, fs, own, j);
    }
    hide Ref;
    forall j, m | 0 <= j < sb.ninodes && 0 <= m < MAXFILE
      ensures Content(sb, gs, j, m) == if j == i && m == bn then data else Content(sb, fs, j, m)
    {
      assert ValidSlot(fs, j, SlotFor(m));
    }
  }

  lemma DataWriteKeeps(sb: Super, fs: Fs, own: map<nat, Slot>, i: nat, bn: nat, data: Block)
    requires WellFormed(sb, fs) && Owned(sb, fs, own) && i < |fs.inodes| && bn < MAXFILE
    requires Ref(fs, i, SlotFor(bn)) != 0
    ensures Ref(fs, i, SlotFor(bn)) < |fs.blocks|
    ensures WellFormed(sb, PutBlock(fs, Ref(fs, i, SlotFor(bn)), data))
    ensures Owned(sb, PutBlock(fs, Ref(fs, i, SlotFor(bn)), data), own)
  {
    hide Word, Bit, Ref;
    DataWriteSlots(sb, fs, own, i, bn, data);
    var gs := PutBlock(fs, Ref(fs, i, SlotFor(bn)), data);
    forall c | 0 <= c < sb.size
      ensures Used(sb, gs, c) <==> Used(sb, fs, c)
    {
      BBlockInRange(sb, c);
    }
  }
}
