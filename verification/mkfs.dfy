/**
 mkfs/mkfs.c: building the first file system image. Blocks are handed out in
 order from a counter and the bit map is written once at the end; this module
 shows that the finished image meets the invariants the kernel relies on.
 */
module Mkfs {
  import opened Blocks
  import opened Common
  import opened FileSystem
  import opened LogFormat
  import opened Volume

  /** No block at or past the file's size is mapped. */
  ghost predicate NoExtra(fs: Fs, i: nat) {
    && i < |fs.inodes|
    && forall bn :: 0 <= bn < MAXFILE && bn * BSIZE >= fs.inodes[i].size ==> Ref(fs, i, SlotFor(bn)) == 0
  }

  /** Exactly the data blocks below next are owned; the rest of the data area and the bit map are still zero. */
  ghost predicate HandedOut(sb: Super, fs: Fs, own: map<nat, Slot>, next: nat)
    requires WellFormed(sb, fs)
  {
    && sb.DataStart() <= next <= sb.size
    && (forall b :: b in own <==> sb.DataStart() <= b < next)
    && (forall b :: next <= b < sb.size ==> fs.blocks[b] == ZERO_BLOCK)
    && (forall b :: sb.bmapstart <= b < sb.DataStart() ==> fs.blocks[b] == ZERO_BLOCK)
  }

  class Image {
    const sb: Super
    var blocks: seq<Block>
    var inodes: seq<Inode>
    var freeblock: nat
    var freeinode: nat
    ghost var own: map<nat, Slot>

    ghost function View(): Fs
      reads this
    {
      Fs(blocks, inodes)
    }

    ghost predicate Valid()
      reads this
    {
      && WellFormed(sb, View()) && Slots(sb, View(), own) && SizesOk(View())
      && HandedOut(sb, View(), own, freeblock)
      && (forall i :: 0 <= i < |inodes| ==> NoHoles(View(), i) && NoExtra(View(), i))
      && (forall i :: freeinode <= i < |inodes| ==> inodes[i] == Inode(0, NO_ADDRS))
    }

    /** The image before anything is added: every block and inode zero. */
    constructor (sb: Super)
      requires sb.Valid()
      ensures Valid() && this.sb == sb && freeinode == 1 && freeblock == sb.DataStart()
      ensures forall i :: 0 <= i < |inodes| ==> inodes[i] == Inode(0, NO_ADDRS)
    {
      this.sb := sb;
      blocks := seq(sb.size, i => ZERO_BLOCK);
      inodes := seq(sb.ninodes, i => Inode(0, NO_ADDRS));
      freeblock := sb.DataStart();
      freeinode := 1;
      own := map[];
    }

    /** mkfs's ialloc: the next inode, empty. The caller must not ask for more inodes than there are. */
    method IAlloc() returns (i: nat)
      requires Valid() && freeinode < |inodes|
      modifies this`freeinode
      ensures Valid() && i == old(freeinode) && freeinode == i + 1 && FileBytes(sb, View(), i) == []
    {
      i := freeinode;
      freeinode := freeinode + 1;
    }

    /** The next block, stored in slot s of inode i. */
    method TakeBlock(i: nat, s: nat)
      requires WellFormed(sb, View()) && Slots(sb, View(), own) && HandedOut(sb, View(), own, freeblock)
               && freeblock < sb.size
      requires ValidSlot(View(), i, s) && Ref(View(), i, s) == 0 && (s > NDIRECT ==> inodes[i].addrs[NDIRECT] != 0)
      modifies this`blocks, this`inodes, this`freeblock, this`own
      ensures WellFormed(sb, View()) && Slots(sb, View(), own) && HandedOut(sb, View(), own, freeblock)
      ensures freeblock == old(freeblock) + 1
      ensures Fills(sb, old(View()), View(), i, s, old(freeblock))
    {
      hide Ref, Word, SetWord, Content, OwnersHold, SlotsOwn;
      ghost var fs := View();
      IndirectIsOwned(sb, fs, own, i);
      PutSlotRefs(sb, fs, own, i, s, freeblock);
      PutSlotKeeps(sb, fs, own, i, s, freeblock);
      if s <= NDIRECT {
        inodes := inodes[i := inodes[i].(addrs := inodes[i].addrs[s := freeblock])];
      } else {
        var ind := inodes[i].addrs[NDIRECT];
        blocks := blocks[ind := SetWord(blocks[ind], s - NDIRECT - 1, freeblock)];
      }
      own := own[freeblock := Slot(i, s)];
      assert View() == PutSlot(fs, i, s, freeblock);
      freeblock := freeblock + 1;
    }

    /** The block that holds file block fbn, taken from the counter if there is none. */
    method MapBlock(i: nat, fbn: nat) returns (x: nat)
      requires WellFormed(sb, View()) && Slots(sb, View(), own) && HandedOut(sb, View(), own, freeblock)
      requires i < |inodes| && fbn < MAXFILE && freeblock + Need(View(), i, fbn) <= sb.size
      modifies this`blocks, this`inodes, this`freeblock, this`own
      ensures WellFormed(sb, View()) && Slots(sb, View(), own) && HandedOut(sb, View(), own, freeblock)
      ensures freeblock == old(freeblock) + Need(old(View()), i, fbn)
      ensures Maps(sb, old(View()), View(), i, fbn, x)
    {
      hide Word, SetWord, OwnersHold, SlotsOwn, HandedOut, Fills, Maps;
      ghost var fs := View();
      if fbn < NDIRECT {
        x := inodes[i].addrs[fbn];
        assert x == Ref(fs, i, fbn);
        if x == 0 {
          x := freeblock;
          TakeBlock(i, fbn);
          FillsMaps(sb, fs, View(), i, fbn, x);
        } else {
          AlreadyMapped(sb, fs, own, i, fbn);
        }
        return;
      }
      var ind := inodes[i].addrs[NDIRECT];
      var newInd := ind == 0;
      if newInd {
        ind := freeblock;
        TakeBlock(i, NDIRECT);
        FillsIndirect(sb, fs, View(), i, ind);
      }
      ghost var ms := View();
      IndirectIsOwned(sb, ms, own, i);
      x := Word(blocks[ind], fbn - NDIRECT);
      assert x == Ref(ms, i, SlotFor(fbn));
      if x == 0 {
        x := freeblock;
        TakeBlock(i, SlotFor(fbn));
        if newInd {
          FillsTwiceMaps(sb, fs, ms, View(), i, fbn, ind, x);
        } else {
          FillsMaps(sb, fs, View(), i, fbn, x);
        }
      } else {
        AlreadyMapped(sb, ms, own, i, fbn);
      }
    }

    /**
     iappend: the file grows by exactly data and no other file changes. It stops at the
     largest file size (an assert in mkfs); the caller must leave room on the image.
     */
    method IAppend(i: nat, data: seq<byte>) returns (r: Result<()>)
      requires Valid() && i < freeinode && i < |inodes|
      requires freeblock + Touched(inodes[i].size, |data|) + 1 <= sb.size
      modifies this`blocks, this`inodes, this`freeblock, this`own
      ensures r.Ok? <==> old(inodes)[i].size + |data| <= MAXFILE * BSIZE
      ensures r.Ok? ==> Valid() && freeblock <= old(freeblock) + Touched(old(inodes)[i].size, |data|) + 1
      ensures r.Ok? ==> FileBytes(sb, View(), i) == FileBytes(sb, old(View()), i) + data
      ensures r.Ok? ==> forall j :: 0 <= j < |inodes| && j != i ==>
                inodes[j] == old(inodes)[j] && FileBytes(sb, View(), j) == FileBytes(sb, old(View()), j)
    {
      hide Maps, FileBytes, NoHoles, NoExtra, AppendInv, Overlay, Need, Touched, ChunkLen, OwnersHold, SlotsOwn,
           HandedOut;
      ghost var fs, fb0 := View(), freeblock;
      var off0 := inodes[i].size;
      ghost var count := 0;
      AppendStarts(sb, fs, own, i, freeblock, data);
      var n := 0;
      while n < |data|
        invariant n <= |data| && off0 + n <= MAXFILE * BSIZE && WellFormed(sb, View())
        invariant Slots(sb, View(), own) && HandedOut(sb, View(), own, freeblock)
        invariant AppendInv(sb, fs, View(), fb0, freeblock, i, data, n, count)
      {
        var off := off0 + n;
        var fbn := off / BSIZE;
        if fbn >= MAXFILE {
          return Panic;
        }
        var n1 := if |data| - n < (fbn + 1) * BSIZE - off then |data| - n else (fbn + 1) * BSIZE - off;
        ChunkArithmetic(off, |data| - n);
        ghost var ms, fb := View(), freeblock;
        RoomLeft(sb, fs, ms, fb0, fb, i, data, n, count);
        var x := MapBlock(i, fbn);
        ghost var mid := View();
        MapBlockOwned(sb, ms, mid, own, freeblock, i, fbn, x);
        var buf := Overlay(blocks[x], off - fbn * BSIZE, data[n..n + n1]);
        blocks := blocks[x := buf];
        HandedOutPut(sb, mid, own, freeblock, x, buf);
        AppendStep(sb, fs, ms, mid, View(), own, fb0, fb, i, data, n, n1, count, x);
        count := count + 1;
        n := n + n1;
      }
      AppendEnds(sb, fs, View(), own, fb0, freeblock, i, data, count);
      inodes := inodes[i := inodes[i].(size := off0 + n)];
      r := Ok(());
    }

    /**
     The last change mkfs makes to the root directory: round its size up past the next block
     boundary. The result has no holes if and only if the size was not already on a boundary.
     */
    method RoundRoot(root: nat)
      requires Valid() && root < |inodes| && inodes[root].size < MAXFILE * BSIZE
      modifies this`inodes
      ensures WellFormed(sb, View()) && Slots(sb, View(), own) && SizesOk(View())
              && HandedOut(sb, View(), own, freeblock)
      ensures inodes[root].size == old(inodes)[root].size / BSIZE * BSIZE + BSIZE
      ensures NoHoles(View(), root) <==> old(inodes)[root].size % BSIZE != 0
      ensures forall j :: 0 <= j < |inodes| && j != root ==> inodes[j] == old(inodes)[j] && NoHoles(View(), j)
    {
      hide Slots, NoExtra, NoHoles;
      var off := inodes[root].size;
      ghost var fs := View();
      off := (off / BSIZE + 1) * BSIZE;
      SizeOnlySlots(sb, fs, own, root, off);
      RoundedHole(sb, fs, root);
      forall j | 0 <= j < |inodes| && j != root
        ensures NoHoles(WithSize(fs, root, off), j)
      {
        OtherStillNoHoles(sb, fs, root, off, j);
      }
      inodes := inodes[root := inodes[root].(size := off)];
    }

    /** mkfs's balloc: mark blocks [0, used) in the one bit map block it writes. */
    method WriteBitmap(used: nat) returns (r: Result<()>)
      requires WellFormed(sb, View())
      modifies this`blocks
      ensures r.Panic? <==> used >= BPB
      ensures r.Ok? ==> exists buf :: BitsBelow(buf, used) && blocks == old(blocks)[sb.bmapstart := buf]
    {
      hide Bit, SetBit;
      if used >= BPB {
        return Panic;
      }
      var buf := ZERO_BLOCK;
      var i := 0;
      ZeroBits();
      while i < used
        invariant i <= used && BitsBelow(buf, i)
      {
        buf := SetBit(buf, i);
        i := i + 1;
      }
      assert sb.bmapstart < |blocks|;
      blocks := blocks[sb.bmapstart := buf];
      r := Ok(());
    }

    /**
     The finished image: every data block marked in the bit map belongs to exactly one slot
     of one inode. The bit map is written in one block, so mkfs stops if it does not suffice.
     */
    method Finish(root: nat) returns (r: Result<()>)
      requires Valid() && root < |inodes| && inodes[root].size < MAXFILE * BSIZE
      modifies this`inodes, this`blocks
      ensures r.Panic? <==> freeblock >= BPB
      ensures r.Ok? ==> WellFormed(sb, View()) && Owned(sb, View(), own) && SizesOk(View())
      ensures r.Ok? ==> (NoHoles(View(), root) <==> old(inodes)[root].size % BSIZE != 0)
      ensures r.Ok? ==> forall j :: 0 <= j < |inodes| && j != root ==> inodes[j] == old(inodes)[j] && NoHoles(View(), j)
    {
      hide Slots, NoHoles, NoExtra, BitsBelow, Used;
      RoundRoot(root);
      ghost var fs := View();
      r := WriteBitmap(freeblock);
      if r.Ok? {
        ghost var buf :| BitsBelow(buf, freeblock) && blocks == fs.blocks[sb.bmapstart := buf];
        BitmapDone(sb, fs, own, freeblock, buf);
      }
    }
  }

  // ----- a directory that fills its blocks

  const FSSIZE: nat := 1000
  const NINODES: nat := 200
  const ROOTINO: nat := 1
  /** sizeof(struct dirent) */
  const DIRENT: nat := 16

  /** The layout that mkfs chooses: boot and super block, log, inode blocks, one bit map block. */
  function MkfsSuper(): (sb: Super)
    ensures sb.Valid() && sb.Bitmaps() == 1 && sb.DataStart() == 46
  {
    Super(FSSIZE, NINODES, 2 + LOGSIZE, 2 + LOGSIZE + NINODES / IPB + 1)
  }

  /**
   mkfs with the given entries for the root directory (those for ".", ".." and each file) and empty files: the finished
   root directory has a hole if and only if the entries fill whole blocks.
   */
  method MakeDirectory(entries: seq<seq<byte>>) returns (img: Image)
    requires |entries| <= NINODES && forall k :: 0 <= k < |entries| ==> |entries[k]| == DIRENT
    ensures fresh(img) && img.sb == MkfsSuper() && WellFormed(img.sb, img.View()) && Owned(img.sb, img.View(), img.own)
    ensures NoHoles(img.View(), ROOTINO) <==> |entries| * DIRENT % BSIZE != 0
  {
    hide NoHoles, FileBytes, Owned, Slots, HandedOut, NoExtra;
    img := new Image(MkfsSuper());
    var root := img.IAlloc();
    var k := 0;
    while k < |entries|
      invariant k <= |entries| && img.Valid() && img.sb == MkfsSuper() && |img.inodes| == NINODES && img.freeinode == 2
      invariant img.inodes[root].size == k * DIRENT && img.freeblock <= 46 + 2 * k
      modifies img
    {
      OneBlock(k * DIRENT);
      var r := img.IAppend(root, entries[k]);
      assert |FileBytes(img.sb, img.View(), root)| == img.inodes[root].size;
      k := k + 1;
    }
    var r := img.Finish(root);
  }

  lemma OneBlock(off: nat)
    requires off % DIRENT == 0
    ensures Touched(off, DIRENT) == 1
  {
  }

  /** So it happens with 62 files: 64 entries fill the first block exactly. */
  method FullDirectory(entries: seq<seq<byte>>) returns (img: Image)
    requires |entries| == 64 && forall k :: 0 <= k < |entries| ==> |entries[k]| == DIRENT
    ensures fresh(img) && WellFormed(img.sb, img.View()) && Owned(img.sb, img.View(), img.own)
            && !NoHoles(img.View(), ROOTINO)
  {
    hide NoHoles, Owned;
    img := MakeDirectory(entries);
  }

  /** The first n bits of a block are set and the rest are clear. */
  ghost predicate BitsBelow(b: Block, n: nat) {
    forall i :: 0 <= i < BPB ==> (Bit(b, i) <==> i < n)
  }

  lemma ZeroBits()
    ensures BitsBelow(ZERO_BLOCK, 0)
  {
    forall i | 0 <= i < BPB
      ensures !Bit(ZERO_BLOCK, i)
    {
      ZeroBlockBits(i);
    }
  }

  lemma RoundedHole(sb: Super, fs: Fs, root: nat)
    requires WellFormed(sb, fs) && root < |fs.inodes| && NoHoles(fs, root) && NoExtra(fs, root)
    requires fs.inodes[root].size < MAXFILE * BSIZE
    ensures var gs := WithSize(fs, root, (fs.inodes[root].size / BSIZE + 1) * BSIZE);
            NoHoles(gs, root) <==> fs.inodes[root].size % BSIZE != 0
  {
    hide Content;
    var size := fs.inodes[root].size;
    var gs := WithSize(fs, root, (size / BSIZE + 1) * BSIZE);
    SizeOnly(sb, fs, root, (size / BSIZE + 1) * BSIZE);
    hide Ref;
    var last := size / BSIZE;
    assert last < MAXFILE;
    assert ValidSlot(fs, root, SlotFor(last));
    if size % BSIZE != 0 {
      forall bn | 0 <= bn < MAXFILE && bn * BSIZE < gs.inodes[root].size
        ensures Ref(gs, root, SlotFor(bn)) != 0
      {
        assert ValidSlot(fs, root, SlotFor(bn));
      }
    } else {
      assert Ref(gs, root, SlotFor(last)) == 0;
    }
  }

  lemma OtherStillNoHoles(sb: Super, fs: Fs, i: nat, size: nat, j: nat)
    requires WellFormed(sb, fs) && i < |fs.inodes| && j < |fs.inodes| && j != i && NoHoles(fs, j)
    ensures NoHoles(WithSize(fs, i, size), j)
  {
    hide Content;
    var gs := WithSize(fs, i, size);
    SizeOnly(sb, fs, i, size);
    hide Ref;
    forall bn | 0 <= bn < MAXFILE && bn * BSIZE < gs.inodes[j].size
      ensures Ref(gs, j, SlotFor(bn)) != 0
    {
      assert ValidSlot(fs, j, SlotFor(bn));
    }
  }

  /** Marking exactly the blocks handed out makes the bit map agree with ownership, and changes no slot. */
  lemma BitmapDone(sb: Super, fs: Fs, own: map<nat, Slot>, next: nat, buf: Block)
    requires WellFormed(sb, fs) && Slots(sb, fs, own) && SizesOk(fs) && HandedOut(sb, fs, own, next) && next < BPB
    requires BitsBelow(buf, next)
    ensures var gs := PutBlock(fs, sb.bmapstart, buf);
            && WellFormed(sb, gs) && Owned(sb, gs, own) && SizesOk(gs)
            && forall j :: 0 <= j < sb.ninodes ==> (NoHoles(gs, j) <==> NoHoles(fs, j))
  {
    hide Word, Bit, Content;
    var gs := PutBlock(fs, sb.bmapstart, buf);
    UnownedWrite(sb, fs, gs, own);
    hide Ref;
    forall j | 0 <= j < sb.ninodes
      ensures NoHoles(gs, j) <==> NoHoles(fs, j)
    {
      assert forall bn :: 0 <= bn < MAXFILE ==>
               ValidSlot(fs, j, SlotFor(bn)) && Ref(gs, j, SlotFor(bn)) == Ref(fs, j, SlotFor(bn));
    }
    forall c | 0 <= c < sb.size
      ensures Used(sb, gs, c) <==> c < sb.DataStart() || c in own
    {
      BBlockInRange(sb, c);
      if c >= BPB {
        ZeroBlockBits(c % BPB);
      }
    }
  }

  // ----- iappend's loop

  /** File blocks of inode i at or past limit are unmapped. */
  ghost predicate UnmappedFrom(fs: Fs, i: nat, limit: nat) {
    i < |fs.inodes| && forall bn :: 0 <= bn < MAXFILE && bn * BSIZE >= limit ==> Ref(fs, i, SlotFor(bn)) == 0
  }

  ghost function IndirectTaken(fs: Fs, gs: Fs, i: nat): nat
    requires i < |fs.inodes| && i < |gs.inodes|
  {
    if fs.inodes[i].addrs[NDIRECT] == 0 && gs.inodes[i].addrs[NDIRECT] != 0 then 1 else 0
  }

  /** iappend's loop invariant after n bytes and count blocks; blocks [fb0, fb) have been taken. */
  ghost predicate AppendInv(sb: Super, fs: Fs, gs: Fs, fb0: nat, fb: nat, i: nat, data: seq<byte>, n: nat, count: nat)
    requires WellFormed(sb, fs) && WellFormed(sb, gs) && i < sb.ninodes && n <= |data|
  {
    var off0 := fs.inodes[i].size;
    && WriteSoFar(sb, fs, gs, i, off0, data[..n]) && UnmappedFrom(gs, i, off0 + n)
    && TallyAt(count, off0, n, |data|)
    && fb <= fb0 + count + IndirectTaken(fs, gs, i)
    && (fs.inodes[i].addrs[NDIRECT] != 0 ==> gs.inodes[i].addrs[NDIRECT] != 0)
  }

  lemma AppendStarts(sb: Super, fs: Fs, own: map<nat, Slot>, i: nat, fb: nat, data: seq<byte>)
    requires WellFormed(sb, fs) && i < sb.ninodes && NoExtra(fs, i)
    ensures AppendInv(sb, fs, fs, fb, fb, i, data, 0, 0)
  {
    hide WriteSoFar, Ref;
    WriteStarts(sb, fs, own, i, fs.inodes[i].size, {});
    assert data[..0] == [];
  }

  lemma RoomLeft(sb: Super, fs: Fs, ms: Fs, fb0: nat, fb: nat, i: nat, data: seq<byte>, n: nat, count: nat)
    requires WellFormed(sb, fs) && WellFormed(sb, ms) && i < sb.ninodes && n < |data|
    requires AppendInv(sb, fs, ms, fb0, fb, i, data, n, count) && (fs.inodes[i].size + n) / BSIZE < MAXFILE
    ensures fb + Need(ms, i, (fs.inodes[i].size + n) / BSIZE) <= fb0 + Touched(fs.inodes[i].size, |data|) + 1
  {
    hide Ref, WriteSoFar, UnmappedFrom;
    MoreToTouch(count, fs.inodes[i].size, n, |data|);
  }

  lemma MoreToTouch(count: nat, off: nat, n: nat, len: nat)
    requires n < len && TallyAt(count, off, n, len)
    ensures count + 1 <= Touched(off, len)
  {
  }

  lemma AppendStep(sb: Super, fs: Fs, ms: Fs, mid: Fs, gs: Fs, own: map<nat, Slot>, fb0: nat, fb: nat, i: nat,
                   data: seq<byte>, n: nat, n1: nat, count: nat, x: nat)
    requires WellFormed(sb, fs) && WellFormed(sb, ms) && i < sb.ninodes && n < |data|
    requires AppendInv(sb, fs, ms, fb0, fb, i, data, n, count)
    requires var pos := fs.inodes[i].size + n;
             && n1 == ChunkLen(pos, |data| - n)
             && Maps(sb, ms, mid, i, pos / BSIZE, x) && Slots(sb, mid, own)
             && gs == PutBlock(mid, x, Overlay(mid.blocks[x], pos % BSIZE, data[n..n + n1]))
    ensures WellFormed(sb, gs) && Slots(sb, gs, own)
    ensures AppendInv(sb, fs, gs, fb0, fb + Need(ms, i, (fs.inodes[i].size + n) / BSIZE), i, data, n + n1, count + 1)
  {
    hide Maps, Slots, WriteSoFar, UnmappedFrom, Ref, Overlay, ChunkLen, TallyAt;
    var off0 := fs.inodes[i].size;
    var fbn := (off0 + n) / BSIZE;
    WriteStep(sb, fs, ms, mid, gs, own, i, off0, data, n, n1, x);
    MappedBlock(sb, ms, mid, i, fbn, x);
    UnmappedStep(sb, ms, mid, gs, own, i, off0 + n, off0 + n + n1, x, gs.blocks[x]);
    TallyStep(count, off0, n, |data|, n1);
    MapIndirect(sb, ms, mid, i, fbn, x);
  }

  lemma ChunkArithmetic(off: nat, rest: nat)
    ensures var fbn := off / BSIZE;
            && off - fbn * BSIZE == off % BSIZE
            && ChunkLen(off, rest) == if rest < (fbn + 1) * BSIZE - off then rest else (fbn + 1) * BSIZE - off
  {
  }

  lemma MapBlockOwned(sb: Super, ms: Fs, gs: Fs, own: map<nat, Slot>, next: nat, i: nat, bn: nat, b: nat)
    requires Maps(sb, ms, gs, i, bn, b) && Slots(sb, gs, own) && HandedOut(sb, gs, own, next)
    ensures sb.DataStart() <= b < next && |gs.inodes| == |ms.inodes|
  {
    hide Ref, SameContents;
    MappedIsOwned(sb, gs, own, i, SlotFor(bn));
  }

  lemma HandedOutPut(sb: Super, fs: Fs, own: map<nat, Slot>, next: nat, b: nat, data: Block)
    requires WellFormed(sb, fs) && HandedOut(sb, fs, own, next) && sb.DataStart() <= b < next
    ensures WellFormed(sb, PutBlock(fs, b, data)) && HandedOut(sb, PutBlock(fs, b, data), own, next)
  {
  }

  lemma UnmappedStep(sb: Super, ms: Fs, mid: Fs, gs: Fs, own: map<nat, Slot>, i: nat, pos: nat, next: nat, b: nat,
                     data: Block)
    requires Maps(sb, ms, mid, i, pos / BSIZE, b) && Slots(sb, mid, own) && UnmappedFrom(ms, i, pos) && pos < next
    requires gs == PutBlock(mid, b, data)
    ensures UnmappedFrom(gs, i, next)
  {
    hide Ref, SameContents, OnlyAddrs;
    DataWriteSlots(sb, mid, own, i, pos / BSIZE, data);
    forall bn | 0 <= bn < MAXFILE && bn * BSIZE >= next
      ensures Ref(gs, i, SlotFor(bn)) == 0
    {
      assert ValidSlot(mid, i, SlotFor(bn)) && ValidSlot(ms, i, SlotFor(bn));
      assert bn != pos / BSIZE;
    }
  }

  lemma AppendEnds(sb: Super, fs: Fs, gs: Fs, own: map<nat, Slot>, fb0: nat, next: nat, i: nat, data: seq<byte>,
                   count: nat)
    requires WellFormed(sb, fs) && WellFormed(sb, gs) && i < sb.ninodes && SizesOk(fs)
    requires Slots(sb, gs, own) && HandedOut(sb, gs, own, next)
    requires forall j :: 0 <= j < sb.ninodes ==> NoHoles(fs, j) && NoExtra(fs, j)
    requires fs.inodes[i].size + |data| <= MAXFILE * BSIZE
    requires AppendInv(sb, fs, gs, fb0, next, i, data, |data|, count)
    ensures next <= fb0 + Touched(fs.inodes[i].size, |data|) + 1
    ensures var hs := WithSize(gs, i, fs.inodes[i].size + |data|);
            && WellFormed(sb, hs) && Slots(sb, hs, own) && SizesOk(hs) && HandedOut(sb, hs, own, next)
            && (forall j :: 0 <= j < sb.ninodes ==> NoHoles(hs, j) && NoExtra(hs, j))
            && FileBytes(sb, hs, i) == FileBytes(sb, fs, i) + data
            && (forall j :: 0 <= j < sb.ninodes && j != i ==>
                  hs.inodes[j] == fs.inodes[j] && FileBytes(sb, hs, j) == FileBytes(sb, fs, j))
  {
    hide WriteSoFar, FileBytes, NoHoles, NoExtra, Slots, Touched;
    assert data[..|data|] == data;
    var size := fs.inodes[i].size + |data|;
    var hs := WithSize(gs, i, size);
    WriteEnds(sb, fs, gs, i, fs.inodes[i].size, data);
    if data == [] {
      assert hs == gs.(inodes := gs.inodes[i := gs.inodes[i].(size := gs.inodes[i].size)]);
    }
    SizeOnlySlots(sb, gs, own, i, size);
    assert Splice(FileBytes(sb, fs, i), fs.inodes[i].size, data) == FileBytes(sb, fs, i) + data;
    forall j | 0 <= j < sb.ninodes
      ensures NoExtra(hs, j)
    {
      StillNoExtra(sb, fs, gs, i, j, size, data);
    }
  }

  lemma StillNoExtra(sb: Super, fs: Fs, gs: Fs, i: nat, j: nat, size: nat, data: seq<byte>)
    requires WellFormed(sb, fs) && WellFormed(sb, gs) && i < sb.ninodes && j < sb.ninodes && NoExtra(fs, j)
    requires WriteSoFar(sb, fs, gs, i, fs.inodes[i].size, data) && UnmappedFrom(gs, i, size)
    ensures NoExtra(WithSize(gs, i, size), j)
  {
    hide Overwrites, Word;
    var hs := WithSize(gs, i, size);
    SizeOnly(sb, gs, i, size);
    hide Ref;
    forall bn | 0 <= bn < MAXFILE && bn * BSIZE >= hs.inodes[j].size
      ensures Ref(hs, j, SlotFor(bn)) == 0
    {
      assert ValidSlot(gs, j, SlotFor(bn)) && ValidSlot(fs, j, SlotFor(bn));
    }
  }
}
