/**
 The on-disk redo log of kernel/log.c: a header block naming the logged home
 blocks, followed by one copy of each. This module gives the header codec and
 what installing a log does to the disk, as functions of disk contents.
 */
module LogFormat {
  import opened Blocks
  import opened Common

  const MAXOPBLOCKS: nat := 10
  const LOGSIZE: nat := 3 * MAXOPBLOCKS

  type Disk = seq<Block>

  /** log.start, log.size and the number of blocks on the device. */
  datatype Layout = Layout(nblocks: nat, start: nat, size: nat) {
    ghost predicate Valid() {
      0 < size && start + size <= nblocks
    }

    /** Every block outside the log area. */
    predicate IsHome(b: nat) {
      b < nblocks && !(start <= b < start + size)
    }

    /** A header that the log area has room for: distinct home blocks, one log block each. */
    ghost predicate ValidHeader(h: seq<nat>) {
      && |h| <= LOGSIZE
      && |h| < size
      && (forall i :: 0 <= i < |h| ==> IsHome(h[i]) && h[i] < WORD_LIMIT)
      && Distinct(h)
    }
  }

  // ----- header codec

  predicate HeaderOk(b: Block) {
    Word(b, 0) <= LOGSIZE
  }

  /** The header read_head loads: n, then block[0..n). */
  function DecodeHeader(b: Block): (h: seq<nat>)
    requires HeaderOk(b)
  {
    seq(Word(b, 0), i requires 0 <= i < Word(b, 0) => Word(b, 1 + i))
  }

  /** write_head's loop: store block[0..k) of h over an existing header block. */
  function PutEntries(b: Block, h: seq<nat>, k: nat): (r: Block)
    requires k <= |h| <= LOGSIZE
    requires forall i :: 0 <= i < |h| ==> h[i] < WORD_LIMIT
    ensures Word(r, 0) == Word(b, 0)
    ensures forall i: nat :: i < k ==> Word(r, 1 + i) == h[i]
  {
    if k == 0 then b else SetWord(PutEntries(b, h, k - 1), k, h[k - 1])
  }

  /** What write_head leaves in the header block b: it reads back as exactly h. */
  function EncodeHeader(b: Block, h: seq<nat>): (r: Block)
    requires |h| <= LOGSIZE
    requires forall i :: 0 <= i < |h| ==> h[i] < WORD_LIMIT
    ensures HeaderOk(r) && DecodeHeader(r) == h
  {
    hide Word, SetWord, PutEntries;
    PutEntries(SetWord(b, 0, |h|), h, |h|)
  }

  // ----- log_write's absorption

  /** The header after log_write of block b: b is appended unless it is already there. */
  function Absorb(h: seq<nat>, b: nat): (r: seq<nat>)
    ensures b in r
    ensures forall c :: c in r <==> c in h || c == b
    ensures Distinct(h) ==> Distinct(r)
  {
    if b in h then h else h + [b]
  }

  // ----- installing a log

  /** The disk after the first t iterations of install_trans. */
  function Install(l: Layout, d: Disk, h: seq<nat>, t: nat): (r: Disk)
    requires l.Valid() && l.ValidHeader(h) && |d| == l.nblocks && t <= |h|
    ensures |r| == |d|
  {
    if t == 0 then d
    else
      var r := Install(l, d, h, t - 1);
      r[h[t - 1] := r[l.start + t]]
  }

  /** Installing writes each named home block from its log copy and changes nothing else. */
  lemma {:induction false} InstallPointwise(l: Layout, d: Disk, h: seq<nat>, t: nat)
    requires l.Valid() && l.ValidHeader(h) && |d| == l.nblocks && t <= |h|
    ensures forall i :: 0 <= i < t ==> Install(l, d, h, t)[h[i]] == d[l.start + 1 + i]
    ensures forall b :: 0 <= b < |d| && b !in h[..t] ==> Install(l, d, h, t)[b] == d[b]
  {
    if t > 0 {
      InstallPointwise(l, d, h, t - 1);
      assert h[..t] == h[..t - 1] + [h[t - 1]];
      assert l.start + t !in h[..t - 1];
      assert Install(l, d, h, t) == Install(l, d, h, t - 1)[h[t - 1] := d[l.start + t]];
      hide Install;
    }
  }

  /** The header on disk names no block: recovery would install nothing. */
  predicate EmptyLog(l: Layout, d: Disk) {
    l.start < |d| && HeaderOk(d[l.start]) && DecodeHeader(d[l.start]) == []
  }

  /** The disk once recover_from_log has run to its end. */
  function Recovered(l: Layout, d: Disk): (r: Disk)
    requires l.Valid() && |d| == l.nblocks
    requires HeaderOk(d[l.start]) && l.ValidHeader(DecodeHeader(d[l.start]))
    ensures |r| == |d| && EmptyLog(l, r)
  {
    var h := DecodeHeader(d[l.start]);
    var r := Install(l, d, h, |h|);
    r[l.start := EncodeHeader(r[l.start], [])]
  }

  /** Two disks that agree on every home block. */
  predicate SameHome(l: Layout, d: Disk, e: Disk) {
    |d| == |e| == l.nblocks && forall b :: 0 <= b < |d| && l.IsHome(b) ==> d[b] == e[b]
  }

  /**
   A disk whose log holds cur's contents of the logged blocks, and whose other home blocks are cur's, recovers to cur.
   */
  lemma RecoversTo(l: Layout, d: Disk, cur: Disk)
    requires l.Valid() && |d| == |cur| == l.nblocks
    requires HeaderOk(d[l.start]) && l.ValidHeader(DecodeHeader(d[l.start]))
    requires var h := DecodeHeader(d[l.start]);
             && (forall i :: 0 <= i < |h| ==> d[l.start + 1 + i] == cur[h[i]])
             && (forall b :: 0 <= b < |d| && l.IsHome(b) && b !in h ==> d[b] == cur[b])
    ensures SameHome(l, Recovered(l, d), cur)
  {
    hide DecodeHeader, HeaderOk, EncodeHeader;
    var h := DecodeHeader(d[l.start]);
    InstallPointwise(l, d, h, |h|);
    assert h[..|h|] == h;
  }
}
