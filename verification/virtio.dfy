/**
 kernel/virtio_disk.c, the descriptors: allocating and freeing chains in the
 table the driver shares with the device (section 2.6 of VIRTIO 1.1).
 */
module Virtio {
  import opened Common

  const NUM: nat := 8
  /** One past the largest uint16. */
  const U16: nat := 0x1_0000

  /** What a descriptor points at. */
  datatype Area = NoArea | Header(op: nat) | Data(buf: nat) | Status(op: nat)

  /** addr and len (as an area), the two flag bits, and next. */
  datatype Desc = Desc(area: Area, hasNext: bool, deviceWrites: bool, next: nat)

  const CLEAR := Desc(NoArea, false, false, 0)

  // ----- specification

  /** The lowest free descriptor. */
  function FirstFree(free: seq<bool>, from: nat := 0): (r: Option<nat>)
    requires from <= |free|
    ensures r.Some? ==> from <= r.value < |free| && free[r.value] && forall j :: from <= j < r.value ==> !free[j]
    ensures r == None ==> forall j :: from <= j < |free| ==> !free[j]
    decreases |free| - from
  {
    if from == |free| then None else if free[from] then Some(from) else FirstFree(free, from + 1)
  }

  /** The descriptors ids are now free. */
  ghost predicate Freed(free: seq<bool>, ids: seq<nat>, free': seq<bool>) {
    |free'| == |free| && forall d :: 0 <= d < |free| ==> free'[d] == (free[d] || d in ids)
  }

  /** The descriptors ids are cleared, the others as they were. */
  ghost predicate Wiped(desc: seq<Desc>, ids: seq<nat>, desc': seq<Desc>) {
    |desc'| == |desc| && forall d :: 0 <= d < |desc| ==> desc'[d] == if d in ids then CLEAR else desc[d]
  }

  /** The descriptors idx are different, were free and are taken; nothing else changed. */
  ghost predicate Took(free: seq<bool>, idx: seq<nat>, free': seq<bool>) {
    && |free'| == |free|
    && (forall k :: 0 <= k < |idx| ==> idx[k] < |free| && free[idx[k]])
    && (forall j, k :: 0 <= j < k < |idx| ==> idx[j] != idx[k])
    && (forall d :: 0 <= d < |free| ==> free'[d] == (free[d] && d !in idx))
  }

  /** Fewer than three are free. */
  ghost predicate TooFew(free: seq<bool>) {
    !exists a, b, c :: 0 <= a < b < c < |free| && free[a] && free[b] && free[c]
  }

  /** From i, the next links lead through exactly ids, all of them in use. */
  ghost predicate IsChain(free: seq<bool>, desc: seq<Desc>, ids: seq<nat>) {
    && ids != []
    && (forall k :: 0 <= k < |ids| ==> ids[k] < |free| && ids[k] < |desc| && !free[ids[k]])
    && (forall k :: 0 <= k < |ids| - 1 ==> desc[ids[k]].hasNext && desc[ids[k]].next == ids[k + 1])
    && !desc[ids[|ids| - 1]].hasNext
    && (forall j, k :: 0 <= j < k < |ids| ==> ids[j] != ids[k])
  }

  class Table {
    var free: array<bool>
    var desc: array<Desc>

    ghost predicate Valid()
      reads this
    {
      free.Length == NUM && desc.Length == NUM
    }

    /** virtio_disk_init: all descriptors start out unused. */
    constructor ()
      ensures Valid() && fresh(free) && fresh(desc) && forall d :: 0 <= d < NUM ==> free[d] && desc[d] == CLEAR
    {
      free := new bool[NUM](_ => true);
      desc := new Desc[NUM](_ => CLEAR);
    }

    method AllocDesc() returns (r: int)
      requires Valid()
      modifies free
      ensures FirstFree(old(free[..])) == None ==> r == -1 && free[..] == old(free[..])
      ensures FirstFree(old(free[..])).Some? ==>
                r == FirstFree(old(free[..])).value && free[..] == old(free[..])[r := false]
    {
      for i := 0 to NUM
        invariant free[..] == old(free[..])
        invariant FirstFree(free[..], i) == FirstFree(free[..])
      {
        if free[i] {
          free[i] := false;
          return i;
        }
      }
      return -1;
    }

    method FreeDesc(i: nat) returns (r: Result<()>)
      requires Valid()
      modifies free, desc
      ensures r.Panic? <==> i >= NUM || old(free[i])
      ensures r.Ok? ==> free[..] == old(free[..])[i := true] && desc[..] == old(desc[..])[i := CLEAR]
    {
      if i >= NUM || free[i] {
        return Panic;
      }
      desc[i] := CLEAR;
      free[i] := true;
      return Ok(());
    }

    /** free_chain: exactly the descriptors of the chain become free; no panic of free_desc is reached. */
    method FreeChain(head: nat, ghost ids: seq<nat>) returns (r: Result<()>)
      requires Valid() && IsChain(free[..], desc[..], ids) && ids[0] == head
      modifies free, desc
      ensures r.Ok? && Freed(old(free[..]), ids, free[..]) && Wiped(old(desc[..]), ids, desc[..])
    {
      var i := head;
      ghost var k := 0;
      while true
        invariant 0 <= k < |ids| && i == ids[k]
        invariant Freed(old(free[..]), ids[..k], free[..]) && Wiped(old(desc[..]), ids[..k], desc[..])
        decreases |ids| - k
      {
        NotYet(ids, k);
        var more := desc[i].hasNext;
        var nxt := desc[i].next;
        var f := FreeDesc(i);
        Take(ids, k);
        k := k + 1;
        if more {
          i := nxt;
        } else {
          assert ids[..k] == ids;
          return Ok(());
        }
      }
    }

    /** alloc3_desc: three different free descriptors, or nothing taken if fewer are free. */
    method Alloc3Desc() returns (r: int, idx: seq<nat>)
      requires Valid()
      modifies free, desc
      ensures r == 0 || r == -1
      ensures r == 0 ==> |idx| == 3 && Took(old(free[..]), idx, free[..]) && desc[..] == old(desc[..])
      ensures r == -1 ==> TooFew(old(free[..])) && free[..] == old(free[..])
      ensures forall d :: 0 <= d < NUM && !old(free[d]) ==> desc[d] == old(desc[d])
    {
      idx := [];
      while |idx| < 3
        invariant |idx| <= 3 && Took(old(free[..]), idx, free[..]) && desc[..] == old(desc[..])
        decreases 3 - |idx|
      {
        ghost var f1 := free[..];
        var d := AllocDesc();
        if d < 0 {
          for j := 0 to |idx|
            invariant forall d :: 0 <= d < NUM ==> free[d] == (old(free[d]) && d !in idx[j..])
            invariant forall d :: 0 <= d < NUM && !old(free[d]) ==> desc[d] == old(desc[d])
          {
            RestOf(idx, j);
            var u := FreeDesc(idx[j]);
          }
          assert idx[|idx|..] == [];
          assert free[..] == old(free[..]);
          AtMostTwo(old(free[..]), idx);
          return -1, idx;
        }
        idx := idx + [d];
      }
      r := 0;
    }
  }

  lemma RestOf(idx: seq<nat>, j: nat)
    requires j < |idx| && forall i, k :: 0 <= i < k < |idx| ==> idx[i] != idx[k]
    ensures forall d :: d in idx[j..] <==> d == idx[j] || d in idx[j + 1..]
    ensures idx[j] !in idx[j + 1..]
  {
    assert idx[j..] == [idx[j]] + idx[j + 1..];
  }

  lemma NotYet(ids: seq<nat>, k: nat)
    requires k < |ids| && forall i, j :: 0 <= i < j < |ids| ==> ids[i] != ids[j]
    ensures forall j :: k <= j < |ids| ==> ids[j] !in ids[..k]
  {
  }

  lemma Take(ids: seq<nat>, k: nat)
    requires k < |ids|
    ensures ids[..k + 1] == ids[..k] + [ids[k]]
  {
  }

  lemma AtMostTwo(free: seq<bool>, idx: seq<nat>)
    requires |idx| < 3 && forall d :: 0 <= d < |free| && free[d] ==> d in idx
    ensures TooFew(free)
  {
    forall a, b, c | 0 <= a < b < c < |free| && free[a] && free[b]
      ensures !free[c]
    {
      assert a in idx && b in idx;
    }
  }
}
