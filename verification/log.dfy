/**
 kernel/log.c as the code is written: one struct log whose fields and on-disk
 blocks are updated in place. Every block write is also appended to a trace, so
 that the disk a crash would leave at any point of commit or of recovery can be
 named. The buffer cache appears as the contents bread returns (view).
 */
module Log {
  import opened Blocks
  import opened Common
  import opened LogFormat

  // ----- the disk after k block writes

  /** ... of write_log: copies of the first k logged blocks. */
  function CopyLog(l: Layout, d: Disk, view: Disk, h: seq<nat>, k: nat): (r: Disk)
    requires l.Valid() && l.ValidHeader(h) && |d| == |view| == l.nblocks && k <= |h|
    ensures |r| == |d|
    ensures forall b :: 0 <= b < |d| ==> r[b] == if l.start < b <= l.start + k then view[h[b - l.start - 1]] else d[b]
  {
    if k == 0 then d else CopyLog(l, d, view, h, k - 1)[l.start + k := view[h[k - 1]]]
  }

  /** ... of write_head. */
  function PutHead(l: Layout, d: Disk, h: seq<nat>): (r: Disk)
    requires l.Valid() && l.ValidHeader(h) && |d| == l.nblocks
    ensures |r| == |d|
  {
    d[l.start := EncodeHeader(d[l.start], h)]
  }

  /** ... of commit: write_log, write_head, install_trans, write_head. */
  function CommitAt(l: Layout, d: Disk, view: Disk, h: seq<nat>, k: nat): (r: Disk)
    requires l.Valid() && l.ValidHeader(h) && |d| == |view| == l.nblocks && k <= 2 * |h| + 2
    ensures |r| == |d|
  {
    var n := |h|;
    if k <= n then CopyLog(l, d, view, h, k)
    else
      var committed := PutHead(l, CopyLog(l, d, view, h, n), h);
      if k <= 2 * n + 1 then Install(l, committed, h, k - n - 1)
      else PutHead(l, Install(l, committed, h, n), [])
  }

  /** ... of recover_from_log: install_trans, write_head. */
  function RecoverAt(l: Layout, d: Disk, k: nat): (r: Disk)
    requires l.Valid() && |d| == l.nblocks && HeaderOk(d[l.start]) && l.ValidHeader(DecodeHeader(d[l.start]))
    requires k <= |DecodeHeader(d[l.start])| + 1
    ensures |r| == |d|
  {
    var h := DecodeHeader(d[l.start]);
    if k <= |h| then Install(l, d, h, k) else PutHead(l, Install(l, d, h, |h|), [])
  }

  // ----- the disks those writes leave, in order

  function CopyTrace(l: Layout, d: Disk, view: Disk, h: seq<nat>, k: nat): (r: seq<Disk>)
    requires l.Valid() && l.ValidHeader(h) && |d| == |view| == l.nblocks && k <= |h|
    ensures |r| == k
    ensures forall i :: 0 <= i < k ==> r[i] == CopyLog(l, d, view, h, i + 1)
  {
    if k == 0 then [] else CopyTrace(l, d, view, h, k - 1) + [CopyLog(l, d, view, h, k)]
  }

  function InstallTrace(l: Layout, d: Disk, h: seq<nat>, k: nat): (r: seq<Disk>)
    requires l.Valid() && l.ValidHeader(h) && |d| == l.nblocks && k <= |h|
    ensures |r| == k
    ensures forall i :: 0 <= i < k ==> r[i] == Install(l, d, h, i + 1)
  {
    if k == 0 then [] else InstallTrace(l, d, h, k - 1) + [Install(l, d, h, k)]
  }

  function CommitTrace(l: Layout, d: Disk, view: Disk, h: seq<nat>): (r: seq<Disk>)
    requires l.Valid() && l.ValidHeader(h) && |d| == |view| == l.nblocks
    ensures |r| == 2 * |h| + 2
  {
    var n := |h|;
    var committed := PutHead(l, CopyLog(l, d, view, h, n), h);
    CopyTrace(l, d, view, h, n) + [committed] + InstallTrace(l, committed, h, n)
    + [PutHead(l, Install(l, committed, h, n), [])]
  }

  function RecoverTrace(l: Layout, d: Disk): (r: seq<Disk>)
    requires Recoverable(l, d)
    ensures |r| == |DecodeHeader(d[l.start])| + 1
    ensures forall i :: 0 <= i < |r| ==> r[i] == RecoverAt(l, d, i + 1)
  {
    var h := DecodeHeader(d[l.start]);
    InstallTrace(l, d, h, |h|) + [PutHead(l, Install(l, d, h, |h|), [])]
  }

  /** The home blocks a whole commit produces: the cached contents of the logged blocks, the disk's for the rest. */
  ghost predicate IsCommitted(l: Layout, d: Disk, view: Disk, h: seq<nat>, r: Disk) {
    |d| == |view| == |r| == l.nblocks
    && forall b :: 0 <= b < |d| && l.IsHome(b) ==> r[b] == if b in h then view[b] else d[b]
  }

  ghost predicate Recoverable(l: Layout, d: Disk) {
    |d| == l.nblocks && l.Valid() && HeaderOk(d[l.start]) && l.ValidHeader(DecodeHeader(d[l.start]))
  }

  /** Before the header write: nothing named by the log, home blocks untouched. */
  lemma CrashWhileCopying(l: Layout, d: Disk, view: Disk, h: seq<nat>, k: nat)
    requires l.Valid() && l.ValidHeader(h) && |d| == |view| == l.nblocks && k <= |h|
    requires EmptyLog(l, d)
    ensures var r := CommitAt(l, d, view, h, k); Recoverable(l, r) && SameHome(l, Recovered(l, r), d)
  {
    hide EncodeHeader, DecodeHeader, HeaderOk;
    var r := CopyLog(l, d, view, h, k);
    assert r[l.start] == d[l.start];
    RecoversTo(l, r, d);
  }

  /**
   Installing part of a log changes no block the header does not name: not the header, the log or other home blocks.
   */
  lemma LogSurvivesInstall(l: Layout, d: Disk, h: seq<nat>, t: nat)
    requires l.Valid() && l.ValidHeader(h) && |d| == l.nblocks && t <= |h|
    ensures var r := Install(l, d, h, t);
            forall b :: 0 <= b < |d| && b !in h ==> r[b] == d[b]
  {
    InstallPointwise(l, d, h, t);
    assert forall b :: b in h[..t] ==> b in h;
  }

  /** From the header write on: the log names every block and holds its new contents. */
  lemma CrashWhileInstalling(l: Layout, d: Disk, view: Disk, h: seq<nat>, k: nat, target: Disk)
    requires l.Valid() && l.ValidHeader(h) && |d| == |view| == l.nblocks && |h| < k <= 2 * |h| + 1
    requires IsCommitted(l, d, view, h, target)
    ensures var r := CommitAt(l, d, view, h, k); Recoverable(l, r) && SameHome(l, Recovered(l, r), target)
  {
    hide EncodeHeader, DecodeHeader, HeaderOk, Install, CopyLog, Recovered;
    var n := |h|;
    var committed := PutHead(l, CopyLog(l, d, view, h, n), h);
    var r := Install(l, committed, h, k - n - 1);
    LogSurvivesInstall(l, committed, h, k - n - 1);
    assert DecodeHeader(r[l.start]) == h;
    RecoversTo(l, r, target);
  }

  /** After the last write every logged block is at home and the log is empty, so that the next commit can start. */
  lemma CommitEnds(l: Layout, d: Disk, view: Disk, h: seq<nat>)
    requires l.Valid() && l.ValidHeader(h) && |d| == |view| == l.nblocks
    ensures var r := CommitAt(l, d, view, h, 2 * |h| + 2); EmptyLog(l, r) && IsCommitted(l, d, view, h, r)
  {
    hide EncodeHeader, DecodeHeader, HeaderOk;
    var n := |h|;
    InstallPointwise(l, PutHead(l, CopyLog(l, d, view, h, n), h), h, n);
    assert h[..n] == h;
  }

  lemma CrashAfterErase(l: Layout, d: Disk, view: Disk, h: seq<nat>, target: Disk)
    requires l.Valid() && l.ValidHeader(h) && |d| == |view| == l.nblocks
    requires IsCommitted(l, d, view, h, target)
    ensures var r := CommitAt(l, d, view, h, 2 * |h| + 2);
            Recoverable(l, r) && SameHome(l, Recovered(l, r), target) && SameHome(l, r, target)
  {
    hide EncodeHeader, DecodeHeader, HeaderOk, CommitAt;
    CommitEnds(l, d, view, h);
    RecoversTo(l, CommitAt(l, d, view, h, 2 * |h| + 2), target);
  }

  /**
   Crash atomicity of one commit: if power fails after k of its 2n+2 block writes, recovery
   restores the old home blocks when k <= n and the whole new ones when k > n, where write
   n+1 is the header write.
   */
  lemma CommitIsAtomic(l: Layout, d: Disk, view: Disk, h: seq<nat>, k: nat, target: Disk)
    requires l.Valid() && l.ValidHeader(h) && |d| == |view| == l.nblocks && k <= 2 * |h| + 2
    requires EmptyLog(l, d)
    requires IsCommitted(l, d, view, h, target)
    ensures var r := CommitAt(l, d, view, h, k);
            Recoverable(l, r) && SameHome(l, Recovered(l, r), if k <= |h| then d else target)
  {
    if k <= |h| {
      CrashWhileCopying(l, d, view, h, k);
    } else if k <= 2 * |h| + 1 {
      CrashWhileInstalling(l, d, view, h, k, target);
    } else {
      CrashAfterErase(l, d, view, h, target);
    }
  }

  /** Every disk that a crash during commit can leave recovers to the old or to the whole new home blocks. */
  lemma CommitTraceIsAtomic(l: Layout, d: Disk, view: Disk, h: seq<nat>, i: nat, target: Disk)
    requires l.Valid() && l.ValidHeader(h) && |d| == |view| == l.nblocks && i < 2 * |h| + 2
    requires EmptyLog(l, d)
    requires IsCommitted(l, d, view, h, target)
    ensures var r := CommitTrace(l, d, view, h)[i];
            Recoverable(l, r) && SameHome(l, Recovered(l, r), if i < |h| then d else target)
  {
    hide CopyLog, CopyTrace, InstallTrace, PutHead, EncodeHeader, DecodeHeader, HeaderOk, Recovered, SameHome,
         IsCommitted;
    assert CommitTrace(l, d, view, h)[i] == CommitAt(l, d, view, h, i + 1);
    CommitIsAtomic(l, d, view, h, i + 1, target);
  }

  /** Recovery can be cut short after any of its writes and started again. */
  lemma RecoveryIsRestartable(l: Layout, d: Disk, k: nat)
    requires Recoverable(l, d) && k <= |DecodeHeader(d[l.start])| + 1
    ensures Recoverable(l, RecoverAt(l, d, k))
    ensures SameHome(l, Recovered(l, RecoverAt(l, d, k)), Recovered(l, d))
  {
    hide EncodeHeader, DecodeHeader, HeaderOk;
    var h := DecodeHeader(d[l.start]);
    var r := RecoverAt(l, d, k);
    var full := Recovered(l, d);
    LogSurvivesInstall(l, d, h, if k <= |h| then k else |h|);
    InstallPointwise(l, d, h, |h|);
    assert h[..|h|] == h;
    RecoversTo(l, r, full);
  }

  /** Any number of interrupted recoveries, the i-th cut after cuts[i] writes. */
  function Interrupted(l: Layout, d: Disk, cuts: seq<nat>): (r: Disk)
    requires Recoverable(l, d)
    ensures Recoverable(l, r)
  {
    if cuts == [] then d
    else
      var e := Interrupted(l, d, cuts[..|cuts| - 1]);
      var n := |DecodeHeader(e[l.start])|;
      var k := if cuts[|cuts| - 1] <= n then cuts[|cuts| - 1] else n + 1;
      RecoveryIsRestartable(l, e, k);
      RecoverAt(l, e, k)
  }

  /** The first recovery that finishes restores the same home blocks, however many were interrupted before it. */
  lemma {:induction false} FirstFinishedRecovery(l: Layout, d: Disk, cuts: seq<nat>)
    requires Recoverable(l, d)
    ensures SameHome(l, Recovered(l, Interrupted(l, d, cuts)), Recovered(l, d))
  {
    hide EncodeHeader, DecodeHeader, HeaderOk, Recovered, RecoverAt;
    if cuts != [] {
      var before := cuts[..|cuts| - 1];
      FirstFinishedRecovery(l, d, before);
      var e := Interrupted(l, d, before);
      var n := |DecodeHeader(e[l.start])|;
      RecoveryIsRestartable(l, e, if cuts[|cuts| - 1] <= n then cuts[|cuts| - 1] else n + 1);
    }
  }

  // ----- struct log and its operations

  datatype Panic = NoPanic | TooBig | OutsideOfTrans | Committing

  class LogState {
    const l: Layout
    var n: nat               // lh.n
    var block: array<nat>    // lh.block
    var outstanding: int
    var committing: bool
    var disk: Disk
    /** The disk after each block write so far. */
    ghost var trace: seq<Disk>

    ghost predicate Valid()
      reads this, block
    {
      && l.Valid() && l.nblocks < WORD_LIMIT
      && block.Length == LOGSIZE
      && |disk| == l.nblocks
      && n <= LOGSIZE && l.ValidHeader(block[..n])
    }

    ghost function Header(): seq<nat>
      requires Valid()
      reads this, block
    {
      block[..n]
    }

    constructor (l: Layout, disk: Disk)
      requires l.Valid() && l.nblocks < WORD_LIMIT && |disk| == l.nblocks
      ensures Valid() && fresh(block) && this.l == l && this.disk == disk && Header() == []
      ensures outstanding == 0 && !committing && trace == []
    {
      this.l := l;
      this.disk := disk;
      n := 0;
      block := new nat[LOGSIZE];
      outstanding, committing, trace := 0, false, [];
      new;
      assert block[..0] == [];
    }

    /** One pass of begin_op's loop: admitted is false where the code sleeps. */
    method BeginOp() returns (admitted: bool)
      requires Valid()
      modifies this`outstanding
      ensures Valid() && Header() == old(Header())
      ensures admitted <==> !committing && |Header()| + (old(outstanding) + 1) * MAXOPBLOCKS <= LOGSIZE
      ensures outstanding == old(outstanding) + if admitted then 1 else 0
    {
      if committing {
        admitted := false;
      } else if n + (outstanding + 1) * MAXOPBLOCKS > LOGSIZE {
        admitted := false;
      } else {
        outstanding := outstanding + 1;
        admitted := true;
      }
    }

    /** end_op: the last operation out commits. view is what bread returns for each block. */
    method EndOp(view: Disk) returns (panic: Panic)
      requires Valid() && |view| == l.nblocks
      modifies this, block
      ensures panic == if old(committing) then Committing else NoPanic
      ensures panic == NoPanic ==> Valid() && block == old(block) && outstanding == old(outstanding) - 1 && !committing
      ensures panic == NoPanic && outstanding != 0 ==>
                disk == old(disk) && Header() == old(Header()) && trace == old(trace)
      ensures panic == NoPanic && outstanding == 0 ==>
                Header() == [] && Committed(old(disk), view, old(Header()), old(trace))
                && IsCommitted(l, old(disk), view, old(Header()), disk)
      ensures panic == NoPanic && old(EmptyLog(l, disk)) ==> EmptyLog(l, disk)
    {
      outstanding := outstanding - 1;
      if committing {
        return Committing;
      }
      if outstanding == 0 {
        committing := true;
        Commit(view);
        committing := false;
      }
      panic := NoPanic;
    }

    /** log_write: absorb b into the header. pinned tells whether bpin was called. */
    method LogWrite(b: nat) returns (panic: Panic, pinned: bool)
      requires Valid() && l.IsHome(b)
      modifies this`n, block
      ensures Valid() && disk == old(disk) && block == old(block)
      ensures panic == if |old(Header())| >= LOGSIZE || |old(Header())| >= l.size - 1 then TooBig
                       else if outstanding < 1 then OutsideOfTrans else NoPanic
      ensures Header() == if panic == NoPanic then Absorb(old(Header()), b) else old(Header())
      ensures pinned <==> panic == NoPanic && b !in old(Header())
    {
      pinned := false;
      if n >= LOGSIZE || n >= l.size - 1 {
        return TooBig, false;
      }
      if outstanding < 1 {
        return OutsideOfTrans, false;
      }
      ghost var h := Header();
      var i := 0;
      while i < n
        invariant i <= n && Valid() && Header() == h && b !in h[..i]
      {
        if block[i] == b {
          break;
        }
        i := i + 1;
      }
      assert h[..n] == h;
      block[i] := b;
      if i == n {
        pinned := true;
        n := n + 1;
        assert block[..n] == h + [b];
      } else {
        assert b in h;
        assert block[..n] == h;
      }
      panic := NoPanic;
    }

    /** bwrite */
    method BlockWrite(b: nat, data: Block)
      requires b < |disk|
      modifies this`disk, this`trace
      ensures disk == old(disk)[b := data] && trace == old(trace) + [disk]
    {
      disk := disk[b := data];
      trace := trace + [disk];
    }

    method WriteLog(view: Disk)
      requires Valid() && |view| == l.nblocks
      modifies this`disk, this`trace
      ensures Valid() && Header() == old(Header())
      ensures disk == CopyLog(l, old(disk), view, Header(), n)
      ensures trace == old(trace) + CopyTrace(l, old(disk), view, Header(), n)
    {
      var tail := 0;
      while tail < n
        invariant tail <= n && Valid() && Header() == old(Header())
        invariant disk == CopyLog(l, old(disk), view, Header(), tail)
        invariant trace == old(trace) + CopyTrace(l, old(disk), view, Header(), tail)
      {
        BlockWrite(l.start + tail + 1, view[block[tail]]);
        tail := tail + 1;
      }
    }

    /** write_head: the in-memory header over the header block. */
    method WriteHead()
      requires Valid()
      modifies this`disk, this`trace
      ensures Valid() && Header() == old(Header())
      ensures disk == PutHead(l, old(disk), Header()) && trace == old(trace) + [disk]
    {
      hide Word, SetWord, DecodeHeader, HeaderOk;
      var hb := SetWord(disk[l.start], 0, n);
      ghost var start := hb;
      var i := 0;
      while i < n
        invariant i <= n
        invariant hb == PutEntries(start, Header(), i)
      {
        hb := SetWord(hb, 1 + i, block[i]);
        i := i + 1;
      }
      BlockWrite(l.start, hb);
    }

    method InstallTrans()
      requires Valid()
      modifies this`disk, this`trace
      ensures Valid() && Header() == old(Header())
      ensures disk == Install(l, old(disk), Header(), n)
      ensures trace == old(trace) + InstallTrace(l, old(disk), Header(), n)
    {
      var tail := 0;
      while tail < n
        invariant tail <= n && Valid() && Header() == old(Header())
        invariant disk == Install(l, old(disk), Header(), tail)
        invariant trace == old(trace) + InstallTrace(l, old(disk), Header(), tail)
      {
        BlockWrite(block[tail], disk[l.start + tail + 1]);
        tail := tail + 1;
      }
    }

    /** read_head: load the header block into memory. */
    method ReadHead()
      requires Valid() && Recoverable(l, disk)
      modifies this`n, block
      ensures Valid() && block == old(block) && Header() == DecodeHeader(disk[l.start])
    {
      var hb := disk[l.start];
      var m := Word(hb, 0);
      var i := 0;
      while i < m
        invariant i <= m && block == old(block)
        invariant forall k :: 0 <= k < i ==> block[k] == Word(hb, 1 + k)
      {
        block[i] := Word(hb, 1 + i);
        i := i + 1;
      }
      n := m;
      assert block[..n] == DecodeHeader(hb);
    }

    /** The trace of one commit, and the disk it ends with. */
    ghost predicate Committed(before: Disk, view: Disk, h: seq<nat>, oldTrace: seq<Disk>)
      requires l.Valid() && l.ValidHeader(h) && |before| == |view| == l.nblocks
      reads this
    {
      if h == [] then disk == before && trace == oldTrace
      else
        && trace == oldTrace + CommitTrace(l, before, view, h)
        && disk == trace[|trace| - 1]
    }

    /**
     commit: by CommitTraceIsAtomic every disk in its trace recovers to the old or the new home blocks. At the end the
     logged blocks are at home and the log on disk is empty.
     */
    method Commit(view: Disk)
      requires Valid() && |view| == l.nblocks
      modifies this`disk, this`trace, this`n
      ensures Valid() && Header() == []
      ensures Committed(old(disk), view, old(Header()), old(trace))
      ensures IsCommitted(l, old(disk), view, old(Header()), disk)
      ensures old(Header()) != [] || old(EmptyLog(l, disk)) ==> EmptyLog(l, disk)
    {
      hide EncodeHeader, DecodeHeader, HeaderOk, CopyLog, Install, CopyTrace, InstallTrace, PutHead;
      if n > 0 {
        CommitEnds(l, disk, view, Header());
        WriteLog(view);
        WriteHead();
        InstallTrans();
        n := 0;
        assert Header() == [];
        WriteHead();
      } else {
        assert Header() == [];
      }
    }

    /** recover_from_log */
    method RecoverFromLog()
      requires Valid() && Recoverable(l, disk)
      modifies this`disk, this`trace, this`n, block
      ensures Valid() && block == old(block) && Header() == []
      ensures disk == Recovered(l, old(disk)) && EmptyLog(l, disk)
      ensures trace == old(trace) + RecoverTrace(l, old(disk))
    {
      hide EncodeHeader, DecodeHeader, HeaderOk, Install, InstallTrace;
      ReadHead();
      InstallTrans();
      n := 0;
      assert Header() == [];
      WriteHead();
    }
  }
}
