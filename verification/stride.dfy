/**
 The stride scheduler (the STRIDE build of kernel/proc.c): findMinStride, the
 stride arm of scheduler on one CPU, and the shares that processes get.
 */
module Stride {
  import opened Common

  const STRIDE_NUM: nat := 60

  datatype State = UNUSED | USED | SLEEPING | RUNNABLE | RUNNING | ZOMBIE

  /** The fields of struct proc that the scheduler uses. */
  datatype Proc = Proc(state: State, tickets: int, pass: int, schedCnt: nat)

  /** What a round adds to the pass. The division truncates in the source; the dividend is positive, so both agree. */
  function StrideOf(p: Proc): int
    requires p.tickets != 0
  {
    STRIDE_NUM / p.tickets
  }

  // ----- what findMinStride finds

  ghost predicate NoneRunnable(procs: seq<Proc>, n: nat)
    requires n <= |procs|
  {
    forall j :: 0 <= j < n ==> procs[j].state != RUNNABLE
  }

  /** The search considers runnable processes with tickets, and starts from the first runnable one whatever it has. */
  ghost predicate Eligible(procs: seq<Proc>, j: nat)
    requires j < |procs|
  {
    procs[j].state == RUNNABLE && (procs[j].tickets > 0 || NoneRunnable(procs, j))
  }

  /** r is the first of the eligible processes with the smallest pass, among the first n. */
  ghost predicate IsMin(procs: seq<Proc>, n: nat, r: nat)
    requires n <= |procs|
  {
    && r < n && Eligible(procs, r)
    && (forall j: nat :: j < n && Eligible(procs, j) ==>
          procs[r].pass <= procs[j].pass && (j < r ==> procs[r].pass < procs[j].pass))
  }

  lemma MinIsUnique(procs: seq<Proc>, n: nat, r: nat, r': nat)
    requires n <= |procs| && IsMin(procs, n, r) && IsMin(procs, n, r')
    ensures r == r'
  {
  }

  /** What one pass of the scheduler's loop comes to. A process without tickets makes it divide by zero. */
  datatype Choice = Idle | Chose(i: nat) | DividesByZero(i: nat)

  class Table {
    var procs: array<Proc>

    method FindMinStride() returns (minp: Option<nat>)
      ensures minp == None <==> NoneRunnable(procs[..], procs.Length)
      ensures minp.Some? ==> IsMin(procs[..], procs.Length, minp.value)
    {
      minp := None;
      var i := 0;
      while i < procs.Length
        invariant 0 <= i <= procs.Length && minp == None && NoneRunnable(procs[..], i)
      {
        if procs[i].state == RUNNABLE {
          minp := Some(i);
          break;
        }
        i := i + 1;
      }
      var j := i + 1;
      while j < procs.Length
        invariant i < procs.Length ==> i < j <= procs.Length && minp.Some? && IsMin(procs[..], j, minp.value)
        invariant i == procs.Length ==> minp == None && NoneRunnable(procs[..], i)
      {
        if procs[j].state == RUNNABLE {
          if procs[j].tickets > 0 && procs[j].pass < procs[minp.value].pass {
            minp := Some(j);
          }
        }
        j := j + 1;
      }
    }

    /** One round of the stride arm of scheduler: the chosen process runs and its pass advances by its stride. */
    method Schedule() returns (choice: Choice)
      modifies procs
      ensures choice == Idle <==> NoneRunnable(old(procs[..]), procs.Length)
      ensures choice != Idle ==> IsMin(old(procs[..]), procs.Length, choice.i)
                                 && (choice.DividesByZero? <==> old(procs[..])[choice.i].tickets == 0)
      ensures procs[..] == if choice.Chose? then Ran(old(procs[..]), choice.i) else old(procs[..])
    {
      var minp := FindMinStride();
      if minp == None {
        return Idle;
      }
      var p := procs[minp.value];
      if p.tickets == 0 {
        return DividesByZero(minp.value);
      }
      procs[minp.value] := Proc(RUNNING, p.tickets, p.pass + STRIDE_NUM / p.tickets, p.schedCnt + 1);
      return Chose(minp.value);
    }
  }

  function Ran(procs: seq<Proc>, r: nat): seq<Proc>
    requires r < |procs| && procs[r].tickets != 0
  {
    var p := procs[r];
    procs[r := Proc(RUNNING, p.tickets, p.pass + StrideOf(p), p.schedCnt + 1)]
  }

  // ----- runs on one CPU

  /**
   A round of the scheduler that runs process r; a process changing its own state or being woken; or slot i getting
   new contents, when a process is made or freed or has its tickets set.
   */
  datatype Event = Round(r: nat) | Change(i: nat, state: State) | Reset(i: nat, p: Proc)

  ghost predicate Enabled(procs: seq<Proc>, e: Event) {
    match e
    case Round(r) => IsMin(procs, |procs|, r) && procs[r].tickets != 0
    case Change(i, state) => i < |procs|
    case Reset(i, p) => i < |procs|
  }

  ghost function Step(procs: seq<Proc>, e: Event): (procs': seq<Proc>)
    requires Enabled(procs, e)
    ensures |procs'| == |procs|
  {
    match e
    case Round(r) => Ran(procs, r)
    case Change(i, state) => procs[i := procs[i].(state := state)]
    case Reset(i, p) => procs[i := p]
  }

  ghost predicate Legal(procs: seq<Proc>, run: seq<Event>)
    decreases |run|, 0
  {
    run == [] || (Legal(procs, run[..|run| - 1]) && Enabled(After(procs, run[..|run| - 1]), run[|run| - 1]))
  }

  ghost function After(procs: seq<Proc>, run: seq<Event>): (procs': seq<Proc>)
    requires Legal(procs, run)
    ensures |procs'| == |procs|
    decreases |run|, 1
  {
    if run == [] then procs else Step(After(procs, run[..|run| - 1]), run[|run| - 1])
  }

  /** Process j is runnable whenever the scheduler chooses. */
  ghost predicate AlwaysRunnable(procs: seq<Proc>, run: seq<Event>, j: nat)
    requires Legal(procs, run) && j < |procs|
    decreases |run|
  {
    run != [] ==>
      var before := run[..|run| - 1];
      && AlwaysRunnable(procs, before, j)
      && (run[|run| - 1].Round? ==> After(procs, before)[j].state == RUNNABLE)
  }

  /** Process i has tickets, and keeps them throughout the run. */
  ghost predicate Keeps(procs: seq<Proc>, run: seq<Event>, i: nat) {
    && i < |procs| && procs[i].tickets > 0
    && forall k :: 0 <= k < |run| && run[k].Reset? ==> run[k].i != i
  }

  /** The rounds that process i gets in a run. */
  ghost function Got(run: seq<Event>, i: nat): nat {
    if run == [] then 0 else Got(run[..|run| - 1], i) + if run[|run| - 1] == Round(i) then 1 else 0
  }

  // ----- the gap between two passes

  /** Tickets and pass as set_proc_tickets leaves them, for tickets that give a stride of at least 1. */
  predicate FreshTickets(p: Proc) {
    1 <= p.tickets <= STRIDE_NUM && p.pass == StrideOf(p)
  }

  lemma StridePositive(p: Proc)
    requires 1 <= p.tickets <= STRIDE_NUM
    ensures 1 <= StrideOf(p) <= STRIDE_NUM
  {
  }

  lemma StrideNonNegative(p: Proc)
    requires p.tickets > 0
    ensures StrideOf(p) >= 0
  {
  }

  function Max(a: int, b: int): int {
    if a < b then b else a
  }

  /** A process's pass grows by its stride in each round it gets, and by nothing else; schedCnt counts those rounds. */
  lemma {:induction false} PassCounts(procs: seq<Proc>, run: seq<Event>, i: nat)
    requires Legal(procs, run) && Keeps(procs, run, i)
    ensures After(procs, run)[i].tickets == procs[i].tickets
    ensures After(procs, run)[i].pass == procs[i].pass + StrideOf(procs[i]) * Got(run, i)
    ensures After(procs, run)[i].schedCnt == procs[i].schedCnt + Got(run, i)
    decreases |run|
  {
    if run != [] {
      var before := run[..|run| - 1];
      PassCounts(procs, before, i);
      OneMore(Got(before, i), StrideOf(procs[i]));
      hide IsMin;
    }
  }

  /**
   From any start: no process gets further ahead of an always runnable one than one stride, or than it was at
   the start, whatever the other processes do.
   */
  lemma {:induction false} PassGap(procs: seq<Proc>, run: seq<Event>, i: nat, j: nat)
    requires Legal(procs, run) && Keeps(procs, run, i) && Keeps(procs, run, j) && AlwaysRunnable(procs, run, j)
    ensures After(procs, run)[i].pass - After(procs, run)[j].pass
            <= Max(StrideOf(procs[i]), procs[i].pass - procs[j].pass)
    decreases |run|
  {
    if run != [] {
      var before := run[..|run| - 1];
      PassGap(procs, before, i, j);
      PassCounts(procs, before, i);
      PassCounts(procs, before, j);
      var now := After(procs, before);
      StrideNonNegative(procs[i]);
      StrideNonNegative(procs[j]);
      if run[|run| - 1] == Round(i) {
        assert Eligible(now, j);
      }
    }
  }

  /** Process i is at most one stride ahead of process j. */
  ghost predicate WithinStride(procs: seq<Proc>, run: seq<Event>, i: nat, j: nat)
    requires Legal(procs, run) && i < |procs| && j < |procs| && procs[i].tickets > 0
  {
    After(procs, run)[i].pass - After(procs, run)[j].pass <= StrideOf(procs[i])
  }

  /** Runs in which i and j keep their tickets and j is always runnable. */
  ghost predicate Competes(procs: seq<Proc>, run: seq<Event>, i: nat, j: nat) {
    Legal(procs, run) && Keeps(procs, run, i) && Keeps(procs, run, j) && AlwaysRunnable(procs, run, j)
  }

  /** The one-stride bound holds on every run in which j is always runnable exactly if it holds at the start. */
  lemma PassGapIff(procs: seq<Proc>, i: nat, j: nat)
    requires i < |procs| && j < |procs| && procs[i].tickets > 0 && procs[j].tickets > 0
    ensures (forall run :: Competes(procs, run, i, j) ==> WithinStride(procs, run, i, j))
            <==> procs[i].pass - procs[j].pass <= StrideOf(procs[i])
  {
    if procs[i].pass - procs[j].pass <= StrideOf(procs[i]) {
      forall run | Competes(procs, run, i, j)
        ensures WithinStride(procs, run, i, j)
      {
        PassGap(procs, run, i, j);
      }
    } else {
      assert Competes(procs, [], i, j) && !WithinStride(procs, [], i, j);
    }
  }

  /** How far, in units of pass, i may get ahead of j's share because of where they started. */
  function HeadStart(procs: seq<Proc>, i: nat, j: nat): int
    requires i < |procs| && j < |procs| && procs[i].tickets > 0
  {
    Max(StrideOf(procs[i]) - procs[i].pass + procs[j].pass, 0)
  }

  /** From any start, the rounds of i are bounded by those of an always runnable j in proportion to their strides. */
  lemma FairShare(procs: seq<Proc>, run: seq<Event>, i: nat, j: nat)
    requires Competes(procs, run, i, j)
    ensures Got(run, i) * StrideOf(procs[i]) <= Got(run, j) * StrideOf(procs[j]) + HeadStart(procs, i, j)
  {
    PassGap(procs, run, i, j);
    PassCounts(procs, run, i);
    PassCounts(procs, run, j);
  }

  /** If both passes are fresh when the run starts, the head start is one stride of j. */
  lemma FreshShare(procs: seq<Proc>, run: seq<Event>, i: nat, j: nat)
    requires Competes(procs, run, i, j) && FreshTickets(procs[i]) && FreshTickets(procs[j])
    ensures Got(run, i) * StrideOf(procs[i]) <= (Got(run, j) + 1) * StrideOf(procs[j])
  {
    FairShare(procs, run, i, j);
    StridePositive(procs[j]);
    OneMore(Got(run, j), StrideOf(procs[j]));
  }

  lemma OneMore(n: int, s: int)
    ensures n * s + s == (n + 1) * s && s * n + s == s * (n + 1)
  {
  }

  // ----- nobody starves

  ghost function Rounds(run: seq<Event>): nat {
    if run == [] then 0 else Rounds(run[..|run| - 1]) + if run[|run| - 1].Round? then 1 else 0
  }

  /** The rounds of the first n processes. */
  ghost function RoundsBelow(run: seq<Event>, n: nat): nat {
    if run == [] then 0
    else RoundsBelow(run[..|run| - 1], n) + if run[|run| - 1].Round? && run[|run| - 1].r < n then 1 else 0
  }

  lemma {:induction false} OneMoreBelow(run: seq<Event>, n: nat)
    ensures RoundsBelow(run, n + 1) == RoundsBelow(run, n) + Got(run, n)
  {
    if run != [] {
      OneMoreBelow(run[..|run| - 1], n);
    }
  }

  lemma {:induction false} AllBelow(procs: seq<Proc>, run: seq<Event>)
    requires Legal(procs, run)
    ensures RoundsBelow(run, |procs|) == Rounds(run)
    decreases |run|
  {
    if run != [] {
      AllBelow(procs, run[..|run| - 1]);
    }
  }

  lemma {:induction false} NoneBelow(run: seq<Event>)
    ensures RoundsBelow(run, 0) == 0
  {
    if run != [] {
      NoneBelow(run[..|run| - 1]);
    }
  }

  lemma {:induction false} BelowBound(run: seq<Event>, n: nat, bound: nat)
    requires forall i: nat :: i < n ==> Got(run, i) <= bound
    ensures RoundsBelow(run, n) <= n * bound
  {
    if n == 0 {
      NoneBelow(run);
    } else {
      BelowBound(run, n - 1, bound);
      OneMoreBelow(run, n - 1);
      assert n * bound == (n - 1) * bound + bound;
    }
  }

  lemma {:induction false} NotChosen(run: seq<Event>, i: nat)
    requires Round(i) !in run
    ensures Got(run, i) == 0
  {
    if run != [] {
      NotChosen(run[..|run| - 1], i);
    }
  }

  /** Every process that runs keeps between 1 and STRIDE_NUM tickets, and its head start over j is at most lead. */
  ghost predicate LeadBound(procs: seq<Proc>, run: seq<Event>, j: nat, lead: nat)
    requires j < |procs|
  {
    forall i: nat :: i < |procs| && Round(i) in run ==>
      Keeps(procs, run, i) && procs[i].tickets <= STRIDE_NUM && HeadStart(procs, i, j) <= lead
  }

  /**
   From any start, an always runnable process gets its part of any number of rounds, once the lead of the others
   is used up.
   */
  lemma NoStarvation(procs: seq<Proc>, run: seq<Event>, j: nat, lead: nat)
    requires Legal(procs, run) && Keeps(procs, run, j) && AlwaysRunnable(procs, run, j)
    requires LeadBound(procs, run, j, lead)
    ensures Rounds(run) <= |procs| * (Got(run, j) * STRIDE_NUM + lead)
  {
    var bound := Got(run, j) * STRIDE_NUM + lead;
    forall i: nat | i < |procs|
      ensures Got(run, i) <= bound
    {
      if Round(i) in run {
        ShareBound(procs, run, i, j, lead);
      } else {
        NotChosen(run, i);
      }
    }
    BelowBound(run, |procs|, bound);
    AllBelow(procs, run);
  }

  lemma ShareBound(procs: seq<Proc>, run: seq<Event>, i: nat, j: nat, lead: nat)
    requires Competes(procs, run, i, j) && procs[i].tickets <= STRIDE_NUM && HeadStart(procs, i, j) <= lead
    ensures Got(run, i) <= Got(run, j) * STRIDE_NUM + lead
  {
    FairShare(procs, run, i, j);
    StridePositive(procs[i]);
    StrideNonNegative(procs[j]);
    MulLe(Got(run, i), StrideOf(procs[i]), Got(run, j), StrideOf(procs[j]), STRIDE_NUM, lead);
  }

  lemma MulLe(a: nat, s: nat, b: nat, t: nat, m: nat, lead: nat)
    requires s >= 1 && t <= m && a * s <= b * t + lead
    ensures a <= b * m + lead
  {
    assert a * 1 <= a * s;
    assert b * t <= b * m;
  }

  // ----- runs in which two processes compete

  lemma Extend(procs: seq<Proc>, run: seq<Event>, e: Event)
    requires Legal(procs, run) && Enabled(After(procs, run), e)
    ensures Legal(procs, run + [e]) && After(procs, run + [e]) == Step(After(procs, run), e)
    ensures forall j: nat :: j < |procs| ==>
              (AlwaysRunnable(procs, run + [e], j) <==>
               AlwaysRunnable(procs, run, j) && (e.Round? ==> After(procs, run)[j].state == RUNNABLE))
    ensures forall j: nat :: Got(run + [e], j) == Got(run, j) + if e == Round(j) then 1 else 0
    ensures Rounds(run + [e]) == Rounds(run) + if e.Round? then 1 else 0
  {
    assert (run + [e])[..|run|] == run;
  }

  /** Processes i and j are runnable, with tickets, and nobody else is runnable. */
  ghost predicate OnlyTwo(procs: seq<Proc>, i: nat, j: nat) {
    && i < |procs| && j < |procs| && i != j
    && procs[i].state == RUNNABLE && procs[i].tickets > 0
    && procs[j].state == RUNNABLE && procs[j].tickets > 0
    && forall k :: 0 <= k < |procs| && k != i && k != j ==> procs[k].state != RUNNABLE
  }

  /** Runs in which i and j keep their tickets and are both always runnable. */
  ghost predicate BothCompete(procs: seq<Proc>, run: seq<Event>, i: nat, j: nat) {
    Competes(procs, run, i, j) && AlwaysRunnable(procs, run, i)
  }

  /** A run in which i and j are always runnable and all rounds are theirs. */
  ghost predicate Duel(procs: seq<Proc>, run: seq<Event>, i: nat, j: nat) {
    BothCompete(procs, run, i, j) && Rounds(run) == Got(run, i) + Got(run, j)
  }

  /** The first n processes settle: i and j become runnable, the others sleep. */
  lemma {:induction false} Settle(procs: seq<Proc>, i: nat, j: nat, n: nat) returns (run: seq<Event>)
    requires i < |procs| && j < |procs| && i != j && procs[i].tickets > 0 && procs[j].tickets > 0 && n <= |procs|
    ensures Duel(procs, run, i, j) && Rounds(run) == 0
    ensures forall k :: 0 <= k < n ==> After(procs, run)[k].state == if k == i || k == j then RUNNABLE else SLEEPING
  {
    if n == 0 {
      run := [];
    } else {
      run := Settle(procs, i, j, n - 1);
      var e := Change(n - 1, if n - 1 == i || n - 1 == j then RUNNABLE else SLEEPING);
      Extend(procs, run, e);
      run := run + [e];
    }
  }

  /** The one of the two that findMinStride picks; once it has run and is runnable again, the two compete as before. */
  lemma PickTwo(procs: seq<Proc>, i: nat, j: nat) returns (r: nat)
    requires OnlyTwo(procs, i, j)
    ensures (r == i || r == j) && Enabled(procs, Round(r))
    ensures procs[i].pass < procs[j].pass ==> r == i
    ensures OnlyTwo(Step(Step(procs, Round(r)), Change(r, RUNNABLE)), i, j)
  {
    r := if procs[i].pass < procs[j].pass || (procs[i].pass == procs[j].pass && i < j) then i else j;
    assert IsMin(procs, |procs|, r);
  }

  lemma OneRound(procs: seq<Proc>, run: seq<Event>, i: nat, j: nat) returns (longer: seq<Event>)
    requires Duel(procs, run, i, j) && OnlyTwo(After(procs, run), i, j)
    ensures Duel(procs, longer, i, j) && Rounds(longer) == Rounds(run) + 1 && OnlyTwo(After(procs, longer), i, j)
  {
    hide IsMin, Legal, After, AlwaysRunnable, Got, Rounds;
    var r := PickTwo(After(procs, run), i, j);
    Extend(procs, run, Round(r));
    longer := run + [Round(r)];
    hide Step;
    Extend(procs, longer, Change(r, RUNNABLE));
    longer := longer + [Change(r, RUNNABLE)];
  }

  /** From any start, a run of as many rounds as one likes in which i and j compete. */
  lemma {:induction false} LongDuel(procs: seq<Proc>, i: nat, j: nat, rounds: nat) returns (run: seq<Event>)
    requires i < |procs| && j < |procs| && i != j && procs[i].tickets > 0 && procs[j].tickets > 0
    ensures Duel(procs, run, i, j) && Rounds(run) == rounds && OnlyTwo(After(procs, run), i, j)
  {
    if rounds == 0 {
      run := Settle(procs, i, j, |procs|);
      PassCounts(procs, run, i);
      PassCounts(procs, run, j);
    } else {
      run := LongDuel(procs, i, j, rounds - 1);
      run := OneRound(procs, run, i, j);
    }
  }

  // ----- and how a process can starve

  /**
   Without that, a process can be kept from running for good: one that sets its tickets again after each of its rounds
   starves any runnable process that is more than a stride ahead of its fresh pass.
   */
  lemma {:induction false} StarvedByResets(procs: seq<Proc>, i: nat, j: nat, rounds: nat) returns (run: seq<Event>)
    requires OnlyTwo(procs, i, j) && FreshTickets(procs[i]) && procs[j].pass > procs[i].pass
    ensures Legal(procs, run) && Keeps(procs, run, j) && AlwaysRunnable(procs, run, j)
    ensures Rounds(run) == rounds && Got(run, j) == 0 && After(procs, run) == procs
  {
    if rounds == 0 {
      run := [];
    } else {
      run := StarvedByResets(procs, i, j, rounds - 1);
      run := StarvedOnce(procs, run, i, j);
    }
  }

  lemma StarvedOnce(procs: seq<Proc>, run: seq<Event>, i: nat, j: nat) returns (longer: seq<Event>)
    requires OnlyTwo(procs, i, j) && procs[j].pass > procs[i].pass
    requires Legal(procs, run) && Keeps(procs, run, j) && AlwaysRunnable(procs, run, j)
    requires Got(run, j) == 0 && After(procs, run) == procs
    ensures Legal(procs, longer) && Keeps(procs, longer, j) && AlwaysRunnable(procs, longer, j)
    ensures Rounds(longer) == Rounds(run) + 1 && Got(longer, j) == 0 && After(procs, longer) == procs
  {
    hide Legal, After, AlwaysRunnable, Got, Rounds, IsMin;
    var r := PickTwo(procs, i, j);
    Extend(procs, run, Round(i));
    longer := run + [Round(i)];
    Extend(procs, longer, Reset(i, procs[i]));
    longer := longer + [Reset(i, procs[i])];
    assert Ran(procs, i)[i := procs[i]] == procs;
  }

  // ----- shares and tickets

  /** Process i gets no more than its share by tickets, give or take one round of j. */
  ghost predicate TicketFair(procs: seq<Proc>, run: seq<Event>, i: nat, j: nat)
    requires i < |procs| && j < |procs|
  {
    Got(run, i) * procs[j].tickets <= (Got(run, j) + 1) * procs[i].tickets
  }

  /** stride * tickets: what is left of STRIDE_NUM after the division has been rounded down. */
  function Weight(p: Proc): int
    requires p.tickets != 0
  {
    StrideOf(p) * p.tickets
  }

  lemma WeightOf(p: Proc)
    requires 1 <= p.tickets <= STRIDE_NUM
    ensures Weight(p) == STRIDE_NUM - STRIDE_NUM % p.tickets
  {
    assert STRIDE_NUM == p.tickets * (STRIDE_NUM / p.tickets) + STRIDE_NUM % p.tickets;
  }

  /** Shares follow tickets where rounding did not cost i more than j. */
  lemma TicketShare(procs: seq<Proc>, run: seq<Event>, i: nat, j: nat)
    requires Competes(procs, run, i, j) && FreshTickets(procs[i]) && FreshTickets(procs[j])
    requires Weight(procs[j]) <= Weight(procs[i])
    ensures TicketFair(procs, run, i, j)
  {
    FreshShare(procs, run, i, j);
    StridePositive(procs[i]);
    StridePositive(procs[j]);
    Scale(Got(run, i), StrideOf(procs[i]), procs[i].tickets, Got(run, j) + 1, StrideOf(procs[j]), procs[j].tickets);
  }

  /** A product that proofs can leave alone. */
  function Times(a: nat, b: nat): nat {
    a * b
  }

  /** From shares by stride to shares by tickets. */
  lemma Scale(n: nat, s: nat, t: nat, m: nat, s': nat, t': nat)
    requires n * s <= m * s' && s' * t' <= s * t && s >= 1
    ensures n * t' <= m * t
  {
    MulMono(n * s, m * s', t');
    MulMono(s' * t', s * t, m);
    assert n * t' * s == n * s * t' && m * s' * t' == s' * t' * m && s * t * m == m * t * s;
    assert (m * t + 1) * s == m * t * s + s;
    Smaller(n * t', m * t + 1, s);
  }

  lemma MulMono(a: nat, b: nat, c: nat)
    requires a <= b
    ensures a * c <= b * c
  {
  }

  /**
   Where rounding did cost i more than j, there is a run with both always runnable that gives i more than its share.
   */
  lemma ShareExceeded(procs: seq<Proc>, i: nat, j: nat) returns (run: seq<Event>)
    requires i < |procs| && j < |procs| && FreshTickets(procs[i]) && FreshTickets(procs[j])
    requires Weight(procs[j]) > Weight(procs[i])
    ensures Duel(procs, run, i, j) && !TicketFair(procs, run, i, j)
  {
    var goal := 7201;
    run := LongDuel(procs, i, j, goal + goal * STRIDE_NUM + STRIDE_NUM + 1);
    StridePositive(procs[i]);
    StridePositive(procs[j]);
    ShareBound(procs, run, j, i, STRIDE_NUM);
    FreshShare(procs, run, j, i);
    Exceeds(Got(run, i), StrideOf(procs[i]), procs[i].tickets, Got(run, j), StrideOf(procs[j]), procs[j].tickets);
  }

  /** With n large enough, a weight that is larger by one outweighs the round that j may be behind. */
  lemma Exceeds(n: nat, s: nat, t: nat, m: nat, s': nat, t': nat)
    requires s <= STRIDE_NUM && s' <= STRIDE_NUM && t <= STRIDE_NUM && n > 7200
    requires Times(m, s') <= Times(n + 1, s) && Times(s', t') >= Times(s, t) + 1
    ensures Times(n, t') > Times(m + 1, t)
  {
    hide Times;
    ShareOfJ(n, s, t, m, s');
    ShareOfI(n, Times(s, t), s', t');
    Square(s, t);
    Square(s', t);
    Smaller(Times(m + 1, t), Times(n, t'), s');
  }

  lemma Square(a: nat, b: nat)
    requires a <= STRIDE_NUM && b <= STRIDE_NUM
    ensures Times(a, b) <= 3600
  {
    MulMono(a, STRIDE_NUM, b);
  }

  lemma ShareOfJ(n: nat, s: nat, t: nat, m: nat, s': nat)
    requires Times(m, s') <= Times(n + 1, s)
    ensures Times(Times(m + 1, t), s') <= Times(n, Times(s, t)) + Times(s, t) + Times(s', t)
  {
    MulMono(m * s', (n + 1) * s, t);
    assert (m + 1) * t * s' == (m * s') * t + s' * t;
    assert ((n + 1) * s) * t == n * (s * t) + s * t;
  }

  lemma ShareOfI(n: nat, w: nat, s': nat, t': nat)
    requires Times(s', t') >= w + 1
    ensures Times(Times(n, t'), s') >= Times(n, w) + n
  {
    MulMono(w + 1, s' * t', n);
    assert n * t' * s' == (s' * t') * n;
    assert (w + 1) * n == n * w + n;
  }

  lemma Smaller(a: nat, b: nat, c: nat)
    requires Times(a, c) < Times(b, c)
    ensures a < b
  {
    if b <= a {
      MulMono(b, a, c);
    }
  }

  /**
   For processes with fresh passes: i keeps to its share by tickets on every run in which i and j are always runnable
   if and only if stride_j * tickets_j <= stride_i * tickets_i; and each keeps to its share if and only if the two
   products are equal.
   */
  lemma TicketShareIff(procs: seq<Proc>, i: nat, j: nat)
    requires i < |procs| && j < |procs| && FreshTickets(procs[i]) && FreshTickets(procs[j])
    ensures (forall run :: BothCompete(procs, run, i, j) ==> TicketFair(procs, run, i, j))
            <==> Weight(procs[j]) <= Weight(procs[i])
    ensures (forall run :: BothCompete(procs, run, i, j) ==>
               TicketFair(procs, run, i, j) && TicketFair(procs, run, j, i))
            <==> Weight(procs[i]) == Weight(procs[j])
  {
    if Weight(procs[j]) <= Weight(procs[i]) {
      forall run | BothCompete(procs, run, i, j)
        ensures TicketFair(procs, run, i, j)
      {
        TicketShare(procs, run, i, j);
      }
    } else {
      var run := ShareExceeded(procs, i, j);
      assert BothCompete(procs, run, i, j) && !TicketFair(procs, run, i, j);
    }
    if Weight(procs[i]) <= Weight(procs[j]) {
      forall run | BothCompete(procs, run, i, j)
        ensures TicketFair(procs, run, j, i)
      {
        TicketShare(procs, run, j, i);
      }
    } else {
      var run := ShareExceeded(procs, j, i);
      assert BothCompete(procs, run, i, j) && !TicketFair(procs, run, j, i);
    }
  }

  /** With 60 and with 31 tickets two always runnable processes get the same number of rounds, give or take one. */
  lemma SameStride(procs: seq<Proc>, run: seq<Event>, i: nat, j: nat)
    requires BothCompete(procs, run, i, j)
    requires FreshTickets(procs[i]) && FreshTickets(procs[j]) && procs[i].tickets == 60 && procs[j].tickets == 31
    ensures -1 <= Got(run, i) - Got(run, j) <= 1
  {
    FreshShare(procs, run, i, j);
    FreshShare(procs, run, j, i);
  }

  /** So there is a run of two processes with 60 and 31 tickets that breaks the share by tickets. */
  lemma SixtyAndThirtyOne() returns (procs: seq<Proc>, run: seq<Event>)
    ensures procs == [Proc(RUNNABLE, 60, 1, 0), Proc(RUNNABLE, 31, 1, 0)] && FreshTickets(procs[0])
            && FreshTickets(procs[1])
    ensures Duel(procs, run, 1, 0) && Got(run, 1) * 60 > (Got(run, 0) + 1) * 31
  {
    procs := [Proc(RUNNABLE, 60, 1, 0), Proc(RUNNABLE, 31, 1, 0)];
    run := ShareExceeded(procs, 1, 0);
  }

  // ----- a process that joins late

  /** Before process j gets a round, an always runnable i that started behind it has caught up with where j started. */
  lemma {:induction false} CatchesUpFirst(procs: seq<Proc>, run: seq<Event>, i: nat, j: nat)
    requires Competes(procs, run, j, i) && Round(j) in run && i != j
    ensures procs[i].pass + StrideOf(procs[i]) * Got(run, i) >= procs[j].pass
    decreases |run|
  {
    var before := run[..|run| - 1];
    StrideNonNegative(procs[i]);
    StrideNonNegative(procs[j]);
    PassCounts(procs, before, i);
    if run[|run| - 1] == Round(j) {
      PassCounts(procs, before, j);
      assert Eligible(After(procs, before), i);
      assert StrideOf(procs[j]) * Got(before, j) >= 0;
    } else {
      CatchesUpFirst(procs, before, i, j);
      OneMore(Got(before, i), StrideOf(procs[i]));
    }
  }

  /** The processes that run, other than i, keep their tickets and start more than k strides of i ahead of it. */
  ghost predicate FarAhead(procs: seq<Proc>, run: seq<Event>, i: nat, k: nat)
    requires i < |procs| && procs[i].tickets > 0
  {
    forall j: nat :: j < |procs| && j != i && Round(j) in run ==>
      Keeps(procs, run, j) && procs[j].pass - procs[i].pass > StrideOf(procs[i]) * k
  }

  /** A process that joins when all others are more than k of its strides ahead gets every one of the next k rounds. */
  lemma LatecomerRunsAlone(procs: seq<Proc>, run: seq<Event>, i: nat, k: nat)
    requires Legal(procs, run) && Keeps(procs, run, i) && AlwaysRunnable(procs, run, i) && FarAhead(procs, run, i, k)
    requires Rounds(run) <= k
    ensures Got(run, i) == Rounds(run)
  {
    forall j: nat | j < |procs| && j != i
      ensures Round(j) !in run
    {
      TooFarAhead(procs, run, i, j, k);
    }
    hide Got, Rounds, Legal, Keeps;
    AllHis(procs, run, i);
  }

  lemma TooFarAhead(procs: seq<Proc>, run: seq<Event>, i: nat, j: nat, k: nat)
    requires Legal(procs, run) && Keeps(procs, run, i) && AlwaysRunnable(procs, run, i) && Rounds(run) <= k
    requires j < |procs| && j != i
    requires Round(j) in run ==> Keeps(procs, run, j) && procs[j].pass - procs[i].pass > StrideOf(procs[i]) * k
    ensures Round(j) !in run
  {
    hide Got, Rounds, Legal, After, AlwaysRunnable, StrideOf;
    AtMostAll(run, i);
    StrideNonNegative(procs[i]);
    StillBehind(StrideOf(procs[i]), Got(run, i), k);
    if Round(j) in run {
      CatchesUpFirst(procs, run, i, j);
    }
  }

  lemma StillBehind(s: nat, n: nat, k: nat)
    requires n <= k
    ensures s * n <= s * k
  {
    MulMono(n, k, s);
  }

  lemma {:induction false} AtMostAll(run: seq<Event>, i: nat)
    ensures Got(run, i) <= Rounds(run)
  {
    if run != [] {
      AtMostAll(run[..|run| - 1], i);
    }
  }

  lemma {:induction false} AllHis(procs: seq<Proc>, run: seq<Event>, i: nat)
    requires Legal(procs, run) && forall j: nat :: j < |procs| && j != i ==> Round(j) !in run
    ensures Got(run, i) == Rounds(run)
    decreases |run|
  {
    if run != [] {
      AllHis(procs, run[..|run| - 1], i);
      assert run[|run| - 1] in run;
    }
  }

  /**
   It happens: two processes with the same tickets, one with a fresh pass and one that has had 100 rounds already. The
   first gets all of the next 99 rounds, so the bound of FreshShare and the one-stride bound fail.
   */
  lemma LatecomerRun() returns (procs: seq<Proc>, run: seq<Event>)
    ensures procs == [Proc(RUNNABLE, 60, 1, 0), Proc(RUNNABLE, 60, 101, 100)] && Duel(procs, run, 0, 1)
    ensures Got(run, 0) == 99 && Got(run, 1) == 0
    ensures Got(run, 0) * StrideOf(procs[0]) > (Got(run, 1) + 1) * StrideOf(procs[1])
    ensures !WithinStride(procs, [], 1, 0)
  {
    procs := [Proc(RUNNABLE, 60, 1, 0), Proc(RUNNABLE, 60, 101, 100)];
    run := LongDuel(procs, 0, 1, 99);
    LatecomerRunsAlone(procs, run, 0, 99);
  }
}
