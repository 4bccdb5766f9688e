/** kernel/pipe.c, the buffer: a ring of PIPESIZE bytes with 32-bit counters that wrap. */
module Pipe {
  import opened Common

  const PIPESIZE: nat := 512
  const UINT: nat := 0x1_0000_0000

  // ----- the ring

  /** data[], nread and nwrite. */
  datatype Ring = Ring(data: seq<byte>, nread: nat, nwrite: nat)

  /** nwrite == nread + PIPESIZE, in unsigned arithmetic */
  predicate IsFull(r: Ring) {
    r.nwrite == (r.nread + PIPESIZE) % UINT
  }

  predicate IsEmpty(r: Ring) {
    r.nread == r.nwrite
  }

  function Pushed(r: Ring, ch: byte): Ring
    requires |r.data| == PIPESIZE
  {
    r.(data := r.data[r.nwrite % PIPESIZE := ch], nwrite := (r.nwrite + 1) % UINT)
  }

  function Front(r: Ring): byte
    requires |r.data| == PIPESIZE
  {
    r.data[r.nread % PIPESIZE]
  }

  function Popped(r: Ring): Ring {
    r.(nread := (r.nread + 1) % UINT)
  }

  /** The ring after the bytes written were pushed, in order, and the bytes taken popped. */
  ghost predicate RingOk(r: Ring, written: seq<byte>, taken: seq<byte>) {
    && |r.data| == PIPESIZE
    && taken <= written && |written| - |taken| <= PIPESIZE
    && r.nread == |taken| % UINT && r.nwrite == |written| % UINT
    && (forall k :: |taken| <= k < |written| ==> r.data[k % PIPESIZE] == written[k])
  }

  /** Because PIPESIZE divides 2^32, a wrapped counter still finds the slot. */
  lemma SlotOfCounter(k: nat)
    ensures k % UINT % PIPESIZE == k % PIPESIZE && (k % UINT + 1) % UINT == (k + 1) % UINT
  {
    var q := k / UINT;
    assert k == UINT * q + k % UINT;
    assert UINT * q == PIPESIZE * (8388608 * q);
    assert k % PIPESIZE == (PIPESIZE * (8388608 * q) + k % UINT) % PIPESIZE;
    ModAdd(8388608 * q, k % UINT, PIPESIZE);
    if k % UINT + 1 < UINT {
      ModAdd(q, k % UINT + 1, UINT);
    } else {
      ModAdd(q + 1, 0, UINT);
    }
  }

  lemma ModAdd(q: nat, r: nat, m: nat)
    requires m > 0
    ensures (m * q + r) % m == r % m
  {
    var d, e := r / m, r % m;
    assert m * q + r == m * (q + d) + e;
    ModUnique(m * q + r, m, q + d, e);
  }

  lemma ModUnique(x: nat, m: nat, q: nat, e: nat)
    requires m > 0 && e < m && x == m * q + e
    ensures x % m == e
  {
    var q', e' := x / m, x % m;
    assert m * (q - q') == e' - e;
    if q != q' {
      MulBig(m, q - q');
    }
  }

  lemma MulBig(m: nat, d: int)
    requires m > 0 && d != 0
    ensures m * d >= m || m * d + m <= 0
  {
  }

  /** The wrapped counters tell empty from full. */
  lemma Counters(r: Ring, written: seq<byte>, taken: seq<byte>)
    requires RingOk(r, written, taken)
    ensures IsEmpty(r) <==> |taken| == |written|
    ensures IsFull(r) <==> |written| - |taken| == PIPESIZE
  {
    var a, b := |taken|, |written|;
    var d := b - a;
    assert a == UINT * (a / UINT) + a % UINT;
    if a % UINT + d < UINT {
      ModUnique(b, UINT, a / UINT, a % UINT + d);
    } else {
      ModUnique(b, UINT, a / UINT + 1, a % UINT + d - UINT);
    }
    if a % UINT + PIPESIZE >= UINT {
      ModUnique(a % UINT + PIPESIZE, UINT, 1, a % UINT + PIPESIZE - UINT);
    }
  }

  lemma SlotsDiffer(a: nat, b: nat)
    requires a < b < a + PIPESIZE
    ensures a % PIPESIZE != b % PIPESIZE
  {
  }

  /** A byte pushed into a ring that is not full joins the end of what was written. */
  lemma PushKeeps(r: Ring, written: seq<byte>, taken: seq<byte>, ch: byte)
    requires RingOk(r, written, taken) && !IsFull(r)
    ensures RingOk(Pushed(r, ch), written + [ch], taken)
  {
    Counters(r, written, taken);
    SlotOfCounter(|written|);
    var r' := Pushed(r, ch);
    forall k | |taken| <= k < |written| + 1
      ensures r'.data[k % PIPESIZE] == (written + [ch])[k]
    {
      if k < |written| {
        SlotsDiffer(k, |written|);
      }
    }
  }

  /** The byte popped is the oldest one not taken. */
  lemma PopKeeps(r: Ring, written: seq<byte>, taken: seq<byte>)
    requires RingOk(r, written, taken) && !IsEmpty(r)
    ensures |taken| < |written| && Front(r) == written[|taken|]
    ensures RingOk(Popped(r), written, taken + [Front(r)])
  {
    Counters(r, written, taken);
    SlotOfCounter(|taken|);
    assert written[..|taken| + 1] == taken + [written[|taken|]];
  }

  function Min(a: nat, b: nat): nat {
    if a < b then a else b
  }

  /** struct pipe, as the copy loops use it while they hold its lock. */
  class Buffer {
    var data: array<byte>
    var nread: nat
    var nwrite: nat
    ghost var written: seq<byte>
    ghost var taken: seq<byte>

    ghost predicate Valid()
      reads this, data
    {
      RingOk(Ring(data[..], nread, nwrite), written, taken)
    }

    /** pipealloc */
    constructor ()
      ensures Valid() && written == [] && taken == [] && fresh(data)
    {
      data := new byte[PIPESIZE](_ => 0);
      nread, nwrite := 0, 0;
      written, taken := [], [];
    }

    /**
     pipewrite's loop, until the bytes are stored, the pipe is full, or copyin fails: only the first good bytes of the
     source can be read.
     */
    method CopyIn(src: seq<byte>, good: nat) returns (i: nat)
      requires Valid()
      modifies this, data
      ensures Valid() && data == old(data) && taken == old(taken)
      ensures i == Min(Min(|src|, good), PIPESIZE - (|old(written)| - |old(taken)|))
      ensures written == old(written) + src[..i]
    {
      i := 0;
      Counters(Ring(data[..], nread, nwrite), written, taken);
      while i < |src| && nwrite != (nread + PIPESIZE) % UINT
        invariant i <= |src| && i <= good && Valid() && data == old(data) && taken == old(taken)
        invariant written == old(written) + src[..i]
        invariant |written| - |taken| == PIPESIZE <==> nwrite == (nread + PIPESIZE) % UINT
      {
        if i == good {
          break;
        }
        ghost var before := Ring(data[..], nread, nwrite);
        PushKeeps(before, written, taken, src[i]);
        data[nwrite % PIPESIZE] := src[i];
        nwrite := (nwrite + 1) % UINT;
        assert Ring(data[..], nread, nwrite) == Pushed(before, src[i]);
        written := written + [src[i]];
        Counters(Ring(data[..], nread, nwrite), written, taken);
        assert src[..i + 1] == src[..i] + [src[i]];
        i := i + 1;
      }
    }

    /**
     piperead's copy loop: the oldest bytes, at most n. If copyout fails, after good bytes, the byte it failed on has
     left the pipe and is lost.
     */
    method CopyOut(n: nat, good: nat) returns (out: seq<byte>)
      requires Valid()
      modifies this
      ensures Valid() && data == old(data) && written == old(written)
      ensures |out| == Min(Min(n, good), |old(written)| - |old(taken)|)
      ensures out == written[|old(taken)|..|old(taken)| + |out|]
      ensures var lost := if good < n && good < |old(written)| - |old(taken)| then 1 else 0;
              |taken| == |old(taken)| + |out| + lost && taken == written[..|taken|]
    {
      out := [];
      Counters(Ring(data[..], nread, nwrite), written, taken);
      while |out| < n && nread != nwrite
        invariant |out| <= n && |out| <= good && Valid() && data == old(data) && written == old(written)
        invariant taken == old(taken) + out
        invariant |taken| == |written| <==> nread == nwrite
        decreases n - |out|
      {
        PopKeeps(Ring(data[..], nread, nwrite), written, taken);
        var ch := data[nread % PIPESIZE];
        nread := (nread + 1) % UINT;
        taken := taken + [ch];
        Counters(Ring(data[..], nread, nwrite), written, taken);
        if |out| == good {
          break;
        }
        out := out + [ch];
      }
    }
  }
}
