/**
 filewrite's chunking loop (kernel/file.c): a write of any length is split into
 operations small enough for the log.
 */
module File {
  import Admission
  import opened Blocks
  import opened Common
  import opened FileSystem
  import Journal
  import opened LogFormat
  import opened Volume

  /** The most bytes filewrite puts in one operation. */
  const CHUNK: nat := (MAXOPBLOCKS - 1 - 1 - 2) / 2 * BSIZE

  /** The blocks that one chunk may log: 7 where one bit map block covers the device, MAXOPBLOCKS otherwise. */
  function ChunkBudget(sb: Super): nat {
    if sb.Bitmaps() == 1 then 7 else MAXOPBLOCKS
  }

  /** Log budget of one chunk: however it is aligned, it logs at most that many distinct blocks. */
  lemma ChunkFitsOperation(sb: Super, off: nat, n: nat)
    requires n <= CHUNK
    ensures WriteBudget(sb, off, n) <= ChunkBudget(sb)
  {
    if n > 0 {
      assert Touched(off, n) <= if off % BSIZE == 0 then 3 else 4;
    }
  }

  /**
   Where one bit map block covers the device, as on the image that mkfs builds, runs of operations within the budget of
   a chunk never trip log_write's guard.
   */
  lemma ChunksNeverTooBig(sb: Super, c: Journal.Config, steps: seq<Journal.Step>, p: nat)
    requires sb.size < BPB && c.Valid() && c.opBlocks == ChunkBudget(sb) && LOGSIZE <= c.l.size
    requires Journal.Legal(c, steps) && p in Journal.After(c, steps).ops
    ensures !Journal.TooBig(c, Journal.After(c, steps))
  {
    Admission.JournalNeverTooBig(c, steps, p);
  }

  /** The file system that decode reads off a disk has each block in one place. */
  ghost predicate OwnedDisk(sb: Super, decode: Disk -> Fs, d: Disk) {
    WellFormed(sb, decode(d)) && exists own :: Owned(sb, decode(d), own)
  }

  /**
   The methods of Volume keep ownership; so it holds whenever no operation is in progress. Then it holds again of what
   recovery makes of the home blocks after a crash at any point, for any way to read the file system off them.
   */
  lemma OwnedAfterCrash(sb: Super, decode: Disk -> Fs, c: Journal.Config, steps: seq<Journal.Step>)
    requires c.Valid() && Journal.Legal(c, steps)
    requires Journal.HoldsWhenQuiet(c, steps, d => OwnedDisk(sb, decode, d))
    ensures var s := Journal.After(c, steps);
            && Journal.Recoverable(c, s) && s.committed <= |s.events| && Journal.EventsOk(c, s.events)
            && SameHome(c.l, Recovered(c.l, s.disk), Journal.Replay(c, s.events[..s.committed]))
            && OwnedDisk(sb, decode, Journal.Replay(c, s.events[..s.committed]))
  {
    hide OwnedDisk;
    Journal.CrashPreserves(c, steps, d => OwnedDisk(sb, decode, d));
  }

  /** Splicing two adjacent pieces one after the other splices their concatenation. */
  lemma SpliceTwice(file: seq<byte>, off: nat, a: seq<byte>, b: seq<byte>)
    requires off <= |file|
    ensures off + |a| <= |Splice(file, off, a)|
    ensures Splice(Splice(file, off, a), off + |a|, b) == Splice(file, off, a + b)
  {
  }

  /** Every file but inode i holds the same bytes. */
  ghost predicate OthersSame(sb: Super, fs: Fs, gs: Fs, i: nat) {
    && WellFormed(sb, fs) && WellFormed(sb, gs) && SizesOk(fs) && SizesOk(gs)
    && forall j :: 0 <= j < sb.ninodes && j != i ==> FileBytes(sb, gs, j) == FileBytes(sb, fs, j)
  }

  /** From fs, data has been written to inode i at off, if off lies within the file, and nothing else has changed. */
  ghost predicate Wrote(sb: Super, fs: Fs, gs: Fs, i: nat, off: nat, data: seq<byte>) {
    && i < sb.ninodes && OthersSame(sb, fs, gs, i)
    && (if off <= fs.inodes[i].size then FileBytes(sb, gs, i) == Splice(FileBytes(sb, fs, i), off, data)
        else data == [] && FileBytes(sb, gs, i) == FileBytes(sb, fs, i))
  }

  lemma WroteNothing(sb: Super, fs: Fs, i: nat, off: nat)
    requires WellFormed(sb, fs) && SizesOk(fs) && i < sb.ninodes
    ensures Wrote(sb, fs, fs, i, off, [])
  {
    hide FileBytes;
    if off <= fs.inodes[i].size {
      assert Splice(FileBytes(sb, fs, i), off, []) == FileBytes(sb, fs, i);
    }
  }

  lemma WroteMore(sb: Super, fs: Fs, ms: Fs, gs: Fs, i: nat, off: nat, a: seq<byte>, b: seq<byte>)
    requires Wrote(sb, fs, ms, i, off, a) && WellFormed(sb, gs) && SizesOk(gs) && off + |a| <= ms.inodes[i].size
             && b != []
    requires a == [] ==> off <= fs.inodes[i].size
    requires FileBytes(sb, gs, i) == Splice(FileBytes(sb, ms, i), off + |a|, b)
    requires forall j :: 0 <= j < sb.ninodes && j != i ==> FileBytes(sb, gs, j) == FileBytes(sb, ms, j)
    ensures Wrote(sb, fs, gs, i, off, a + b)
  {
    hide FileBytes, Splice;
    SpliceTwice(FileBytes(sb, fs, i), off, a, b);
  }

  lemma WroteSize(sb: Super, fs: Fs, gs: Fs, i: nat, off: nat, data: seq<byte>)
    requires Wrote(sb, fs, gs, i, off, data)
    ensures off <= fs.inodes[i].size ==> off + |data| <= gs.inodes[i].size
    ensures off > fs.inodes[i].size ==> gs.inodes[i].size == fs.inodes[i].size
  {
    assert |FileBytes(sb, gs, i)| == gs.inodes[i].size;
  }

  /** Whether len bytes fit in a file of the given size from off on. */
  predicate Fits(size: nat, off: nat, len: nat) {
    off <= size && off + len <= MAXFILE * BSIZE
  }

  /** The length of the chunk that starts after done of len bytes. */
  function ChunkAt(len: nat, done: nat): nat
    requires done <= len
  {
    if len - done > CHUNK then CHUNK else len - done
  }

  /** How many of len bytes filewrite writes: all of them if they fit, and else as many whole chunks as fit. */
  function Room(size: nat, off: nat, len: nat): nat {
    if Fits(size, off, len) then len
    else if off > size || off > MAXFILE * BSIZE then 0
    else (MAXFILE * BSIZE - off) / CHUNK * CHUNK
  }

  lemma RoomBound(size: nat, off: nat, len: nat)
    requires size <= MAXFILE * BSIZE
    ensures Room(size, off, len) <= len
  {
    assert CHUNK == 3072;
  }

  lemma RoomStep(size: nat, off: nat, len: nat, done: nat)
    requires done < len && WholeChunks(done) && done <= Room(size, off, len) && size <= MAXFILE * BSIZE
    ensures if Fits(size, off, done + ChunkAt(len, done)) then done + ChunkAt(len, done) <= Room(size, off, len)
            else done == Room(size, off, len)
  {
    assert CHUNK == 3072;
    var k := done / 3072;
    assert done == 3072 * k;
    if !Fits(size, off, len) && off <= size {
      var most := (MAXFILE * BSIZE - off) / 3072;
      assert Room(size, off, len) == most * 3072 && k <= most;
    }
  }

  /** How many operations it takes to write len bytes. */
  function Chunks(len: nat): nat {
    (len + CHUNK - 1) / CHUNK
  }

  predicate WholeChunks(len: nat) {
    len % CHUNK == 0
  }

  lemma NoChunks()
    ensures Chunks(0) == 0 && WholeChunks(0)
  {
  }

  lemma OneMoreChunk(done: nat, len: nat)
    requires WholeChunks(done) && done < len
    ensures Chunks(done + ChunkAt(len, done)) == Chunks(done) + 1
    ensures done + ChunkAt(len, done) < len ==> WholeChunks(done + ChunkAt(len, done))
  {
    assert CHUNK == 3072;
    var k := done / 3072;
    assert done == 3072 * k && Chunks(done) == k;
  }

  /** Every block in which the two states differ was logged by one of the operations. */
  ghost predicate Covered(before: seq<Block>, after: seq<Block>, ops: seq<set<nat>>) {
    |after| == |before|
    && forall c :: 0 <= c < |before| && after[c] != before[c] ==> exists k :: 0 <= k < |ops| && c in ops[k]
  }

  lemma CoveredMore(b0: seq<Block>, b1: seq<Block>, b2: seq<Block>, ops: seq<set<nat>>, logged: set<nat>)
    requires Covered(b0, b1, ops) && Logs(b1, {}, b2, logged)
    ensures Covered(b0, b2, ops + [logged])
  {
    var all := ops + [logged];
    forall c | 0 <= c < |b0| && b2[c] != b0[c]
      ensures exists k :: 0 <= k < |all| && c in all[k]
    {
      if b2[c] != b1[c] {
        assert c in all[|ops|];
      } else {
        var k :| 0 <= k < |ops| && c in ops[k];
        assert c in all[k];
      }
    }
  }

  lemma CoveredNone(blocks: seq<Block>)
    ensures Covered(blocks, blocks, [])
  {
  }

  lemma BudgetFits(sb: Super)
    ensures ChunkBudget(sb) <= MAXOPBLOCKS
  {
  }

  lemma ChunkLength(len: nat, done: nat)
    requires done < len
    ensures 0 < ChunkAt(len, done) <= CHUNK && done + ChunkAt(len, done) <= len
  {
  }

  /** Each operation logged at most that many blocks. */
  ghost predicate AllWithin(ops: seq<set<nat>>, most: nat) {
    forall k :: 0 <= k < |ops| ==> |ops[k]| <= most
  }

  lemma WithinNone(most: nat)
    ensures AllWithin([], most)
  {
  }

  lemma WithinMore(ops: seq<set<nat>>, logged: set<nat>, most: nat)
    requires AllWithin(ops, most) && |logged| <= most
    ensures AllWithin(ops + [logged], most)
  {
  }

  lemma ChunkTakes(own: map<nat, Slot>, own1: map<nat, Slot>, own2: map<nat, Slot>, i: nat, off: nat, a: nat, b: nat)
    requires Takes(own, own1, i, SlotsUnder(off, a)) && Takes(own1, own2, i, SlotsUnder(off + a, b))
    ensures Takes(own, own2, i, SlotsUnder(off, a + b))
  {
    hide Takes, SlotsUnder, Missing;
    SlotsUnderSplit(off, a, b);
    TakesTrans(own, own1, own2, i, SlotsUnder(off, a), SlotsUnder(off + a, b));
  }

  lemma ChunkStops(sb: Super, fs: Fs, own: map<nat, Slot>, ms: Fs, own1: map<nat, Slot>, i: nat, off: nat, a: nat,
                   b: nat, room: nat)
    requires WellFormed(sb, fs) && Owned(sb, fs, own) && i < |fs.inodes|
    requires WellFormed(sb, ms) && Owned(sb, ms, own1) && i < |ms.inodes| && a + b <= room
    requires Takes(own, own1, i, SlotsUnder(off, a)) && NoRoom(sb, ms, i, off + a, b)
    ensures NoRoom(sb, fs, i, off, room)
  {
    hide Takes, SlotsUnder, Owned, NoRoom, Exhausted;
    NoRoomIs(sb, ms, own1, i, off + a, b);
    ExhaustedLater(sb, own, own1, i, SlotsUnder(off, a), SlotsUnder(off + a, b));
    SlotsUnderSplit(off, a, b);
    SlotsUnderSplit(off, a + b, room - a - b);
    ExhaustedSooner(sb, own, i, SlotsUnder(off, a + b), SlotsUnder(off, room));
    NoRoomIs(sb, fs, own, i, off, room);
  }

  class FileHandle {
    var vol: Volume
    const inum: nat
    var off: nat
    const writable: bool
    /** The blocks that each operation so far has logged. */
    ghost var ops: seq<set<nat>>

    constructor (vol: Volume, inum: nat, off: nat, writable: bool)
      ensures this.vol == vol && this.inum == inum && this.off == off && this.writable == writable && ops == []
    {
      this.vol, this.inum, this.off, this.writable, ops := vol, inum, off, writable, [];
    }

    method BeginOp()
      modifies vol`logged
      ensures vol.logged == {}
    {
      vol.logged := {};
    }

    method EndOp()
      modifies this`ops
      ensures ops == old(ops) + [vol.logged]
    {
      ops := ops + [vol.logged];
    }

    ghost predicate Valid()
      reads this, vol
    {
      vol.Valid() && inum < |vol.inodes| && off < WORD_LIMIT
    }

    /**
     One round of filewrite's loop: a chunk is written in one operation. It fails exactly if the chunk does not fit.
     */
    method WriteChunk(chunk: seq<byte>) returns (r: Result<int>)
      requires Valid() && 0 < |chunk| <= CHUNK
      modifies this`off, this`ops, vol
      ensures vol == old(vol)
      ensures r.Panic? ==> ops == old(ops) && WellFormed(vol.sb, vol.View())
                           && forall c :: 0 <= c < vol.sb.size ==> Used(vol.sb, vol.View(), c)
      ensures r.Ok? ==> Valid()
      ensures r.Ok? ==> r.value == if Fits(old(vol.inodes)[inum].size, old(off), |chunk|) then |chunk| else -1
      ensures r.Panic? <==> Fits(old(vol.inodes)[inum].size, old(off), |chunk|)
                            && NoRoom(vol.sb, old(vol.View()), inum, old(off), |chunk|)
      ensures r == Ok(-1) ==> off == old(off) && vol.View() == old(vol.View()) && vol.own == old(vol.own)
      ensures r == Ok(|chunk|) ==> Takes(old(vol.own), vol.own, inum, SlotsUnder(old(off), |chunk|))
      ensures r == Ok(|chunk|) ==>
                off == old(off) + |chunk| && WriteDone(vol.sb, old(vol.View()), vol.View(), inum, old(off), chunk)
      ensures r.Ok? ==> ops == old(ops) + [vol.logged] && Logs(old(vol.blocks), {}, vol.blocks, vol.logged)
      ensures r.Ok? && NoHoles(old(vol.View()), inum) ==> |vol.logged| <= ChunkBudget(vol.sb)
    {
      hide FileBytes, NoHoles, WriteBudget, Owned, Splice, WriteDone, Logs, ChunkBudget, Used, NoRoom, Takes,
           SlotsUnder;
      BeginOp();
      LogsNone(vol.blocks, {});
      r := vol.WriteI(inum, off, chunk);
      if r.Panic? {
        return;
      }
      ChunkFitsOperation(vol.sb, off, |chunk|);
      assert vol.logged - {} == vol.logged;
      if r.value > 0 {
        off := off + r.value;
      }
      EndOp();
    }

    /**
     filewrite on an inode. On success the whole of src is in the file at the old offset
     and the offset has advanced past it; that is so exactly if all of it fits. A short count is
     never returned: otherwise the result is -1, after the whole chunks (done bytes) that fit. It
     panics exactly if there are fewer free blocks than it needs for that. It takes one operation
     for each chunk; together they log every block that has changed, and each logs few enough
     blocks for the log.
     */
    method FileWrite(src: seq<byte>) returns (r: Result<int>, ghost done: nat)
      requires Valid() && |src| < WORD_LIMIT
      modifies this`off, this`ops, vol
      ensures vol == old(vol)
      ensures !writable ==> r == Ok(-1) && done == 0 && off == old(off) && vol.View() == old(vol.View())
      ensures r.Ok? ==> Valid() && (r.value == -1 || r.value == |src|)
      ensures r.Ok? ==> done <= |src| && off == old(off) + done
      ensures r.Ok? ==> Wrote(vol.sb, old(vol.View()), vol.View(), inum, old(off), src[..done])
      ensures r.Ok? && writable ==> (r.value == |src| <==> done == |src|)
      ensures r.Ok? && writable ==>
                (r.value == |src| <==> src == [] || Fits(old(vol.inodes)[inum].size, old(off), |src|))
      ensures r == Ok(-1) && writable ==>
                WholeChunks(done) && !Fits(old(vol.inodes)[inum].size, old(off), done + ChunkAt(|src|, done))
      ensures r.Panic? ==> WellFormed(vol.sb, vol.View())
                           && forall c :: 0 <= c < vol.sb.size ==> Used(vol.sb, vol.View(), c)
      ensures r.Ok? && writable ==> done == Room(old(vol.inodes)[inum].size, old(off), |src|)
      ensures r.Ok? ==> Takes(old(vol.own), vol.own, inum, SlotsUnder(old(off), done))
      ensures r.Panic? <==> writable && NoRoom(vol.sb, old(vol.View()), inum, old(off),
                                               Room(old(vol.inodes)[inum].size, old(off), |src|))
      ensures old(ops) <= ops
      ensures r.Ok? && writable ==> |ops| - |old(ops)| == Chunks(done) + if r.value == -1 then 1 else 0
      ensures r.Ok? && writable ==> Covered(old(vol.blocks), vol.blocks, ops[|old(ops)|..])
      ensures NoHoles(old(vol.View()), inum) ==>
                AllWithin(ops[|old(ops)|..], ChunkBudget(vol.sb)) && ChunkBudget(vol.sb) <= MAXOPBLOCKS
    {
      hide FileBytes, NoHoles, WriteBudget, Owned, Splice, Wrote, Covered, Logs, Chunks, ChunkAt, ChunkBudget,
           WholeChunks, AllWithin, NoRoom, Takes, SlotsUnder, Room, Used;
      done := 0;
      BudgetFits(vol.sb);
      ghost var mine: seq<set<nat>> := [];
      CoveredNone(vol.blocks);
      NoChunks();
      WriteTakesNone(vol.own, inum, off);
      WithinNone(ChunkBudget(vol.sb));
      ghost var fs := vol.View();
      WroteNothing(vol.sb, fs, inum, off);
      assert src[..0] == [];
      if !writable {
        assert ops[|old(ops)|..] == mine;
        return Ok(-1), 0;
      }
      ghost var room := Room(fs.inodes[inum].size, off, |src|);
      RoomBound(fs.inodes[inum].size, off, |src|);
      var i := 0;
      while i < |src|
        invariant i <= |src| && done == i && off == old(off) + i && vol == old(vol)
        invariant Valid() && |vol.inodes| == |fs.inodes|
        invariant Wrote(vol.sb, fs, vol.View(), inum, old(off), src[..i])
        invariant i > 0 ==> Fits(fs.inodes[inum].size, old(off), i)
        invariant i < |src| ==> WholeChunks(i)
        invariant i <= room && Takes(old(vol.own), vol.own, inum, SlotsUnder(old(off), i))
        invariant ops == old(ops) + mine && |mine| == Chunks(i) && Covered(old(vol.blocks), vol.blocks, mine)
        invariant NoHoles(fs, inum) ==> NoHoles(vol.View(), inum) && AllWithin(mine, ChunkBudget(vol.sb))
      {
        var n1 := ChunkAt(|src|, i);
        OneMoreChunk(i, |src|);
        ChunkLength(|src|, i);
        ghost var ms, own1 := vol.View(), vol.own;
        WroteSize(vol.sb, fs, ms, inum, old(off), src[..i]);
        RoomStep(fs.inodes[inum].size, old(off), |src|, i);
        var w := WriteChunk(src[i..i + n1]);
        if w.Panic? {
          ChunkStops(vol.sb, fs, old(vol.own), ms, own1, inum, old(off), i, n1, room);
          assert ops[|old(ops)|..] == mine;
          return Panic, done;
        }
        CoveredMore(old(vol.blocks), ms.blocks, vol.blocks, mine, vol.logged);
        if NoHoles(fs, inum) {
          WithinMore(mine, vol.logged, ChunkBudget(vol.sb));
        }
        mine := mine + [vol.logged];
        if w.value != n1 {
          break;
        }
        ChunkTakes(old(vol.own), own1, vol.own, inum, old(off), i, n1);
        WroteMore(vol.sb, fs, ms, vol.View(), inum, old(off), src[..i], src[i..i + n1]);
        assert src[..i] + src[i..i + n1] == src[..i + n1];
        i := i + n1;
        done := i;
      }
      assert ops[|old(ops)|..] == mine;
      HadRoom(vol.sb, fs, old(vol.own), vol.View(), vol.own, inum, old(off), done);
      r := Ok(if i == |src| then |src| else -1);
    }
  }
}
