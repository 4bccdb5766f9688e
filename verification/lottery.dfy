/**
 The lottery scheduler (the LOTTERY build of kernel/proc.c): the winning ranges
 that calculate_procs_ticket hands out, the draw in scheduler, and what becomes
 of the ranges while processes are freed without a recalculation.
 */
module Lottery {
  import opened Common

  /** The fields of struct proc that the lottery uses; used stands for state != UNUSED. */
  datatype Proc = Proc(used: bool, tickets: int, begin: int, end: int)

  /** A process that takes part. */
  predicate Live(p: Proc) {
    p.used && p.tickets != 0
  }

  const INT_LIMIT: int := 0x8000_0000

  /** An int as the unsigned number that it becomes when it is compared with the draw. */
  function U32(x: int): nat {
    x % (2 * INT_LIMIT)
  }

  lemma U32Same(x: int)
    requires 0 <= x < INT_LIMIT
    ensures U32(x) == x
  {
  }

  predicate Wins(p: Proc, draw: int) {
    Live(p) && U32(p.begin) <= draw <= U32(p.end)
  }

  function TicketsOf(p: Proc): int {
    if Live(p) then p.tickets else 0
  }

  // ----- specification of the recalculation

  function Sum(procs: seq<Proc>): int {
    if procs == [] then 0 else Sum(procs[..|procs| - 1]) + TicketsOf(procs[|procs| - 1])
  }

  /** p's range, after total tickets have been handed out. */
  function Ranged(p: Proc, total: int): Proc {
    if Live(p) then p.(begin := total + 1, end := total + p.tickets) else p
  }

  /** procs' has the processes of procs, with ranges one after the other. */
  ghost predicate Recalculated(procs: seq<Proc>, procs': seq<Proc>) {
    |procs'| == |procs| && forall i :: 0 <= i < |procs| ==> procs'[i] == Ranged(procs[i], Sum(procs[..i]))
  }

  /** The first process that wins the draw. */
  ghost predicate FirstWinner(procs: seq<Proc>, draw: int, r: nat) {
    r < |procs| && Wins(procs[r], draw) && forall j :: 0 <= j < r ==> !Wins(procs[j], draw)
  }

  ghost predicate NoWinner(procs: seq<Proc>, draw: int) {
    forall j :: 0 <= j < |procs| ==> !Wins(procs[j], draw)
  }

  /**
   What a draw comes to. With a total of zero it takes a remainder by zero, and a draw that nobody wins before any
   process was chosen leaves the scheduler with the null pointer.
   */
  datatype Draw = DividesByZero | NullProcess | Chosen(i: nat)

  class Table {
    var procs: array<Proc>
    var total: int

    method CalculateProcsTicket()
      modifies this`total, procs
      ensures procs.Length == old(procs.Length) && Recalculated(old(procs[..]), procs[..])
              && total == Sum(old(procs[..]))
    {
      hide Sum;
      total := 0;
      ghost var was := procs[..];
      SumNone(was);
      for i := 0 to procs.Length
        modifies this`total, procs
        invariant total == Sum(was[..i])
        invariant forall j :: 0 <= j < i ==> procs[j] == Ranged(was[j], Sum(was[..j]))
        invariant forall j :: i <= j < procs.Length ==> procs[j] == was[j]
      {
        SumNext(was, i);
        var p := procs[i];
        if p.used && p.tickets != 0 {
          procs[i] := p.(begin := total + 1, end := total + p.tickets);
          total := total + p.tickets;
        }
      }
      assert was[..procs.Length] == was;
    }

    method SetProcTickets(i: nat, n: int)
      requires i < procs.Length
      modifies this`total, procs
      ensures var now := old(procs[..])[i := old(procs[i]).(tickets := n)];
              Recalculated(now, procs[..]) && total == Sum(now)
    {
      procs[i] := procs[i].(tickets := n);
      CalculateProcsTicket();
    }

    /** The scheduler's search. If nobody wins, the choice of the round before stands, if there was one. */
    method FindWinner(random: nat, previous: Option<nat>) returns (r: Draw)
      requires -INT_LIMIT <= total < INT_LIMIT
      ensures r == DividesByZero <==> total == 0
      ensures total != 0 ==>
                var draw := random % U32(total) + 1;
                && (NoWinner(procs[..], draw) ==> r == if previous == None then NullProcess else Chosen(previous.value))
                && (!NoWinner(procs[..], draw) ==> r.Chosen? && FirstWinner(procs[..], draw, r.i))
    {
      if total == 0 {
        return DividesByZero;
      }
      var draw := random % U32(total) + 1;
      for i := 0 to procs.Length
        invariant forall j :: 0 <= j < i ==> !Wins(procs[j], draw)
      {
        if procs[i].used && procs[i].tickets != 0 {
          if U32(procs[i].begin) <= draw && draw <= U32(procs[i].end) {
            return Chosen(i);
          }
        }
      }
      r := if previous == None then NullProcess else Chosen(previous.value);
    }

    /** What freeproc does to the lottery. There is no recalculation, so the tickets count as gone from now on. */
    method FreeProc(i: nat, ghost gone: int)
      requires i < procs.Length
      modifies procs
      ensures procs[..] == Freed(old(procs[..]), i)
      ensures old(Invariant(procs[..], total, gone)) ==> Invariant(procs[..], total, gone + TicketsOf(old(procs[i])))
    {
      if Invariant(procs[..], total, gone) {
        FreeKeeps(procs[..], total, gone, i);
      }
      procs[i] := procs[i].(used := false, tickets := 0);
    }
  }

  function Freed(procs: seq<Proc>, i: nat): seq<Proc>
    requires i < |procs|
  {
    procs[i := procs[i].(used := false, tickets := 0)]
  }

  // ----- the invariant

  /** A live process holds as many draws, within 1..total, as it has tickets. */
  predicate RangeOk(p: Proc, total: int) {
    Live(p) ==> p.tickets > 0 && 1 <= p.begin && p.end <= total && p.end - p.begin + 1 == p.tickets
  }

  predicate Apart(p: Proc, q: Proc) {
    Live(p) && Live(q) ==> p.end < q.begin || q.end < p.begin
  }

  /**
   Live ranges are disjoint, and the total counts the live tickets and those of processes freed since the ranges were
   made.
   */
  ghost predicate Invariant(procs: seq<Proc>, total: int, gone: int) {
    && (forall i :: 0 <= i < |procs| ==> RangeOk(procs[i], total))
    && (forall i, j :: 0 <= i < j < |procs| ==> Apart(procs[i], procs[j]))
    && total == Sum(procs) + gone && gone >= 0 && total < INT_LIMIT
  }

  lemma {:induction false} SumMono(procs: seq<Proc>, i: nat, j: nat)
    requires i <= j <= |procs| && forall k :: 0 <= k < |procs| ==> TicketsOf(procs[k]) >= 0
    ensures 0 <= Sum(procs[..i]) <= Sum(procs[..j])
    decreases j
  {
    if i < j {
      SumMono(procs, i, j - 1);
      assert procs[..j][..j - 1] == procs[..j - 1];
    } else if j > 0 {
      SumMono(procs, j - 1, j - 1);
      assert procs[..j][..j - 1] == procs[..j - 1];
    }
  }

  lemma {:induction false} SumUpdate(procs: seq<Proc>, i: nat, p: Proc)
    requires i < |procs|
    ensures Sum(procs[i := p]) == Sum(procs) - TicketsOf(procs[i]) + TicketsOf(p)
  {
    var last := |procs| - 1;
    if i == last {
      assert procs[i := p][..last] == procs[..last];
    } else {
      assert procs[i := p][..last] == procs[..last][i := p];
      SumUpdate(procs[..last], i, p);
    }
  }

  lemma {:induction false} SumSame(procs: seq<Proc>, procs': seq<Proc>)
    requires |procs'| == |procs| && forall i :: 0 <= i < |procs| ==> TicketsOf(procs'[i]) == TicketsOf(procs[i])
    ensures Sum(procs') == Sum(procs)
  {
    if procs != [] {
      SumSame(procs[..|procs| - 1], procs'[..|procs| - 1]);
    }
  }

  predicate NonNegative(procs: seq<Proc>) {
    forall i :: 0 <= i < |procs| ==> TicketsOf(procs[i]) >= 0
  }

  lemma SumNone(procs: seq<Proc>)
    ensures Sum(procs[..0]) == 0
  {
  }

  lemma SumNext(procs: seq<Proc>, i: nat)
    requires i < |procs|
    ensures Sum(procs[..i + 1]) == Sum(procs[..i]) + TicketsOf(procs[i])
  {
    assert procs[..i + 1][..i] == procs[..i];
  }

  lemma RangedOk(procs: seq<Proc>, i: nat)
    requires NonNegative(procs) && i < |procs|
    ensures RangeOk(Ranged(procs[i], Sum(procs[..i])), Sum(procs))
  {
    SumNext(procs, i);
    SumMono(procs, i, i);
    SumMono(procs, i + 1, |procs|);
    assert procs[..|procs|] == procs;
    hide Sum;
  }

  lemma RangedApart(procs: seq<Proc>, i: nat, j: nat)
    requires NonNegative(procs) && i < j < |procs|
    ensures Apart(Ranged(procs[i], Sum(procs[..i])), Ranged(procs[j], Sum(procs[..j])))
  {
    SumNext(procs, i);
    SumMono(procs, i + 1, j);
    hide Sum;
  }

  /** After a recalculation nothing is lost. */
  lemma RecalculationOk(procs: seq<Proc>, procs': seq<Proc>)
    requires NonNegative(procs) && Recalculated(procs, procs') && Sum(procs) < INT_LIMIT
    ensures Invariant(procs', Sum(procs), 0)
  {
    hide Sum, RangeOk, Apart;
    SumSame(procs, procs');
    forall i | 0 <= i < |procs|
      ensures RangeOk(procs'[i], Sum(procs))
    {
      RangedOk(procs, i);
    }
    forall i, j | 0 <= i < j < |procs|
      ensures Apart(procs'[i], procs'[j])
    {
      RangedApart(procs, i, j);
    }
  }

  /** Freeing a process moves its tickets from the live ones to those gone. */
  lemma FreeKeeps(procs: seq<Proc>, total: int, gone: int, i: nat)
    requires Invariant(procs, total, gone) && i < |procs|
    ensures Invariant(Freed(procs, i), total, gone + TicketsOf(procs[i]))
  {
    var p := procs[i].(used := false, tickets := 0);
    SumUpdate(procs, i, p);
    assert RangeOk(procs[i], total);
    forall a, b | 0 <= a < b < |procs|
      ensures Apart(Freed(procs, i)[a], Freed(procs, i)[b])
    {
      assert Apart(procs[a], procs[b]);
    }
  }

  // ----- runs

  /** allocproc and set_proc_tickets recalculate; freeproc does not. sys_tickets hands on any int. */
  datatype Event = Alloc(i: nat) | SetTickets(i: nat, n: int) | Free(i: nat)

  /** made is the table as the last recalculation left it, gone the sum of the tickets freed since. */
  datatype Sys = Sys(procs: seq<Proc>, total: int, gone: int, made: seq<Proc>)

  const ALLOC_TICKETS: int := 10

  /** No sum on the way leaves the range of int. */
  ghost predicate Fits(procs: seq<Proc>) {
    forall k :: 0 <= k <= |procs| ==> -INT_LIMIT <= Sum(procs[..k]) < INT_LIMIT
  }

  /** The table that event e hands to calculate_procs_ticket. */
  ghost function Changed(procs: seq<Proc>, e: Event): (procs': seq<Proc>)
    requires e.i < |procs| && !e.Free?
    ensures |procs'| == |procs|
  {
    procs[e.i := if e.Alloc? then procs[e.i].(used := true, tickets := ALLOC_TICKETS) else procs[e.i].(tickets := e.n)]
  }

  ghost predicate Enabled(y: Sys, e: Event) {
    && e.i < |y.procs|
    && (e.Alloc? ==> !y.procs[e.i].used)
    && (!e.Free? ==> Fits(Changed(y.procs, e)))
  }

  /** y' is what event e makes of y. */
  ghost predicate Next(y: Sys, e: Event, y': Sys) {
    && Enabled(y, e)
    && if e.Free? then
         y' == y.(procs := Freed(y.procs, e.i), gone := y.gone + TicketsOf(y.procs[e.i]))
       else
         var now := Changed(y.procs, e);
         Recalculated(now, y'.procs) && y'.total == Sum(now) && y'.gone == 0 && y'.made == y'.procs
  }

  /** states[k + 1] follows states[k] by run[k]. */
  ghost predicate IsRun(states: seq<Sys>, run: seq<Event>) {
    |states| == |run| + 1 && forall k :: 0 <= k < |run| ==> Next(states[k], run[k], states[k + 1])
  }

  /** At boot every process is unused. */
  predicate Boot(y: Sys) {
    y.total == 0 && y.gone == 0 && y.made == y.procs && forall i :: 0 <= i < |y.procs| ==> !y.procs[i].used
  }

  /** The table is the one the last recalculation left, except for processes freed since. */
  ghost predicate Traced(y: Sys) {
    && Recalculated(y.made, y.made) && Fits(y.made) && y.total == Sum(y.made) == Sum(y.procs) + y.gone
    && |y.procs| == |y.made|
    && forall i :: 0 <= i < |y.made| ==> y.procs[i] == y.made[i] || y.procs[i] == Freed(y.made, i)[i]
  }

  /** Giving out ranges changes no tickets, so giving them out again changes nothing. */
  lemma RangesStay(now: seq<Proc>, made: seq<Proc>)
    requires Recalculated(now, made)
    ensures Recalculated(made, made) && Sum(made) == Sum(now) && (Fits(now) ==> Fits(made))
  {
    SumSame(now, made);
    forall i | 0 <= i <= |now|
      ensures Sum(made[..i]) == Sum(now[..i])
    {
      SumSame(now[..i], made[..i]);
    }
  }

  lemma StepKeeps(y: Sys, e: Event, y': Sys)
    requires Traced(y) && Next(y, e, y')
    ensures Traced(y')
  {
    hide Sum, Fits;
    if e.Free? {
      SumUpdate(y.procs, e.i, Freed(y.procs, e.i)[e.i]);
    } else {
      RangesStay(Changed(y.procs, e), y'.procs);
    }
  }

  lemma {:induction false} BootOk(procs: seq<Proc>)
    requires forall i :: 0 <= i < |procs| ==> !procs[i].used
    ensures Sum(procs) == 0
  {
    if procs != [] {
      BootOk(procs[..|procs| - 1]);
    }
  }

  lemma BootTraced(y: Sys)
    requires Boot(y)
    ensures Traced(y)
  {
    BootOk(y.procs);
    forall k | 0 <= k <= |y.procs|
      ensures Sum(y.procs[..k]) == 0
    {
      BootOk(y.procs[..k]);
    }
  }

  /** If no tickets were negative at the last recalculation, the invariant holds. */
  lemma TracedInvariant(y: Sys)
    requires Traced(y) && NonNegative(y.made)
    ensures Invariant(y.procs, y.total, y.gone)
  {
    var n := |y.made|;
    assert y.made[..n] == y.made;
    RecalculationOk(y.made, y.made);
    SumLess(y.procs, y.made);
    hide Sum, Recalculated, Fits;
    forall i | 0 <= i < n
      ensures RangeOk(y.procs[i], y.total)
    {
      assert RangeOk(y.made[i], y.total);
    }
    forall i, j | 0 <= i < j < n
      ensures Apart(y.procs[i], y.procs[j])
    {
      assert Apart(y.made[i], y.made[j]);
    }
  }

  lemma {:induction false} SumLess(procs: seq<Proc>, made: seq<Proc>)
    requires NonNegative(made) && |procs| == |made|
    requires forall i :: 0 <= i < |made| ==> procs[i] == made[i] || procs[i] == Freed(made, i)[i]
    ensures Sum(procs) <= Sum(made)
  {
    if made != [] {
      var last := |made| - 1;
      assert forall i :: 0 <= i < last ==> Freed(made[..last], i)[i] == Freed(made, i)[i];
      SumLess(procs[..last], made[..last]);
    }
  }

  /**
   On every run, with whatever tickets: the ranges are those of the last recalculation, less the processes freed since,
   and the total is live tickets plus those gone. Unless tickets were negative then, live ranges are disjoint.
   */
  lemma {:induction false} RunKeeps(states: seq<Sys>, run: seq<Event>, k: nat)
    requires IsRun(states, run) && Boot(states[0]) && k < |states|
    ensures Traced(states[k])
    ensures NonNegative(states[k].made) ==> Invariant(states[k].procs, states[k].total, states[k].gone)
    decreases k
  {
    hide Traced, NonNegative, Invariant, Next;
    if k == 0 {
      BootTraced(states[0]);
    } else {
      RunKeeps(states, run, k - 1);
      assert Next(states[k - 1], run[k - 1], states[k]);
      StepKeeps(states[k - 1], run[k - 1], states[k]);
    }
    if NonNegative(states[k].made) {
      TracedInvariant(states[k]);
    }
  }

  /** The tickets of the processes between i and j. */
  ghost function Between(procs: seq<Proc>, i: nat, j: nat): int
    requires i < j < |procs|
  {
    Sum(procs[..j]) - Sum(procs[..i + 1])
  }

  /**
   When negative tickets are about: two ranges of positive length are disjoint if and only if the tickets between them
   do not add up to a negative number, or to one so small that the second range lies below the first.
   */
  lemma ApartIff(procs: seq<Proc>, made: seq<Proc>, i: nat, j: nat)
    requires Recalculated(procs, made) && i < j < |procs|
    requires Live(procs[i]) && Live(procs[j]) && procs[i].tickets > 0 && procs[j].tickets > 0
    ensures Apart(made[i], made[j])
            <==> Between(procs, i, j) >= 0 || procs[i].tickets + Between(procs, i, j) + procs[j].tickets <= 0
  {
    SumNext(procs, i);
    hide Sum;
  }

  /** A process with negative tickets wins every draw from the start of its range up to where the range wraps around. */
  lemma NegativeWins(procs: seq<Proc>, made: seq<Proc>, i: nat, draw: int)
    requires Recalculated(procs, made) && Fits(procs) && i < |procs| && Live(procs[i])
    requires 0 <= Sum(procs[..i]) && Sum(procs[..i + 1]) < 0 && Sum(procs[..i]) < draw < INT_LIMIT
    ensures Wins(made[i], draw)
  {
    SumNext(procs, i);
    hide Sum;
    assert made[i].end == Sum(procs[..i + 1]) && -INT_LIMIT <= made[i].end;
    U32Same(draw);
  }

  // ----- draws

  /** The numbers from a to b. */
  ghost function Span(a: int, b: int): (s: set<int>)
    ensures forall d :: d in s <==> a <= d <= b
    ensures |s| == if a <= b then b - a + 1 else 0
    decreases b - a + 1
  {
    if a > b then {} else Span(a, b - 1) + {b}
  }

  /** Draws that one of the first n processes wins. */
  ghost function Won(procs: seq<Proc>, n: nat): set<int>
    requires n <= |procs|
  {
    if n == 0 then {} else Won(procs, n - 1) + WonBy(procs[n - 1])
  }

  ghost function WonBy(p: Proc): set<int> {
    if Live(p) then Span(U32(p.begin), U32(p.end)) else {}
  }

  /** A process wins exactly as many of the draws as it has tickets, all of them possible. */
  lemma WinsItsTickets(p: Proc, total: int)
    requires RangeOk(p, total) && total < INT_LIMIT
    ensures |WonBy(p)| == TicketsOf(p) && WonBy(p) <= Span(1, total)
  {
    if Live(p) {
      U32Same(p.begin);
      U32Same(p.end);
    }
  }

  lemma WonByIff(p: Proc, d: int)
    ensures d in WonBy(p) <==> Wins(p, d)
  {
  }

  lemma {:induction false} WonIff(procs: seq<Proc>, n: nat, d: int)
    requires n <= |procs|
    ensures d in Won(procs, n) <==> exists i :: 0 <= i < n && Wins(procs[i], d)
  {
    hide WonBy, Wins;
    if n > 0 {
      WonIff(procs, n - 1, d);
      WonByIff(procs[n - 1], d);
    }
  }

  lemma WonNone(procs: seq<Proc>)
    ensures Won(procs, 0) == {}
  {
  }

  lemma WonNext(procs: seq<Proc>, n: nat)
    requires n < |procs|
    ensures Won(procs, n + 1) == Won(procs, n) + WonBy(procs[n])
  {
  }

  lemma {:induction false} WonCount(procs: seq<Proc>, total: int, gone: int, n: nat)
    requires Invariant(procs, total, gone) && n <= |procs|
    ensures |Won(procs, n)| == Sum(procs[..n])
  {
    hide WonBy, Sum, Span, Invariant, TicketsOf, Won;
    WonNone(procs);
    if n == 0 {
      SumNone(procs);
    } else {
      WonCount(procs, total, gone, n - 1);
      WonByCount(procs, total, gone, n - 1);
      WonApart(procs, total, gone, n - 1);
      SumNext(procs, n - 1);
      WonNext(procs, n - 1);
      UnionCount(Won(procs, n - 1), WonBy(procs[n - 1]));
    }
  }

  lemma WonByCount(procs: seq<Proc>, total: int, gone: int, i: nat)
    requires Invariant(procs, total, gone) && i < |procs|
    ensures |WonBy(procs[i])| == TicketsOf(procs[i])
  {
    hide Sum;
    WinsItsTickets(procs[i], total);
  }

  lemma {:induction false} WonWithin(procs: seq<Proc>, total: int, gone: int, n: nat)
    requires Invariant(procs, total, gone) && n <= |procs|
    ensures Won(procs, n) <= Span(1, total)
  {
    hide WonBy, Sum;
    if n > 0 {
      WonWithin(procs, total, gone, n - 1);
      WinsItsTickets(procs[n - 1], total);
    }
  }

  lemma UnionCount(a: set<int>, b: set<int>)
    requires a !! b
    ensures |a + b| == |a| + |b|
  {
  }

  lemma WonApart(procs: seq<Proc>, total: int, gone: int, n: nat)
    requires Invariant(procs, total, gone) && n < |procs|
    ensures Won(procs, n) !! WonBy(procs[n])
  {
    hide Won, Sum;
    forall d | d in Won(procs, n)
      ensures d !in WonBy(procs[n])
    {
      WonIff(procs, n, d);
      var i :| 0 <= i < n && Wins(procs[i], d);
      WonByIff(procs[n], d);
      hide WonBy, Wins, Invariant;
      if d in WonBy(procs[n]) {
        OneWinner(procs, total, gone, d, i, n);
      }
    }
  }

  lemma WinsInRange(procs: seq<Proc>, total: int, gone: int, d: int, i: nat)
    requires Invariant(procs, total, gone) && i < |procs| && Wins(procs[i], d)
    ensures procs[i].begin <= d <= procs[i].end
  {
    assert RangeOk(procs[i], total);
    U32Same(procs[i].begin);
    U32Same(procs[i].end);
  }

  /** In any reachable state a draw has at most one winner, so the search finds the only one. */
  lemma OneWinner(procs: seq<Proc>, total: int, gone: int, d: int, i: nat, j: nat)
    requires Invariant(procs, total, gone) && i < |procs| && j < |procs| && Wins(procs[i], d) && Wins(procs[j], d)
    ensures i == j
  {
    WinsInRange(procs, total, gone, d, i);
    WinsInRange(procs, total, gone, d, j);
  }

  /** The draws that match nobody number exactly the tickets gone. */
  lemma UnmatchedDraws(procs: seq<Proc>, total: int, gone: int)
    requires Invariant(procs, total, gone)
    ensures |Span(1, total) - Won(procs, |procs|)| == gone
    ensures forall d :: 1 <= d <= total ==> (d !in Won(procs, |procs|) <==> NoWinner(procs, d))
  {
    WonCount(procs, total, gone, |procs|);
    WonWithin(procs, total, gone, |procs|);
    assert procs[..|procs|] == procs;
    var all, won := Span(1, total), Won(procs, |procs|);
    assert all == won + (all - won);
    SumNonNegative(procs, total);
    forall d | 1 <= d <= total
      ensures d !in won <==> NoWinner(procs, d)
    {
      WonIff(procs, |procs|, d);
    }
  }

  lemma {:induction false} SumNonNegative(procs: seq<Proc>, total: int)
    requires forall i :: 0 <= i < |procs| ==> RangeOk(procs[i], total)
    ensures Sum(procs) >= 0
  {
    if procs != [] {
      SumNonNegative(procs[..|procs| - 1], total);
    }
  }

  /** Right after a recalculation every draw has exactly one winner. */
  lemma EveryDrawWins(procs: seq<Proc>, procs': seq<Proc>, d: int)
    requires NonNegative(procs) && Recalculated(procs, procs') && 1 <= d <= Sum(procs) < INT_LIMIT
    ensures exists i :: 0 <= i < |procs'| && Wins(procs'[i], d)
                        && forall j :: 0 <= j < |procs'| && Wins(procs'[j], d) ==> j == i
  {
    var total := Sum(procs);
    RecalculationOk(procs, procs');
    UnmatchedDraws(procs', total, 0);
    var lost := Span(1, total) - Won(procs', |procs'|);
    assert lost == {};
    assert d in Span(1, total) && d !in lost;
    WonIff(procs', |procs'|, d);
    var i :| 0 <= i < |procs'| && Wins(procs'[i], d);
    forall j | 0 <= j < |procs'| && Wins(procs'[j], d)
      ensures j == i
    {
      OneWinner(procs', total, 0, d, i, j);
    }
  }

  /**
   A draw finds a winner in every case exactly if no tickets are gone; otherwise some draw repeats the previous choice.
   */
  lemma AlwaysAWinnerIff(procs: seq<Proc>, total: int, gone: int)
    requires Invariant(procs, total, gone)
    ensures (forall d :: 1 <= d <= total ==> !NoWinner(procs, d)) <==> gone == 0
  {
    UnmatchedDraws(procs, total, gone);
    var lost := Span(1, total) - Won(procs, |procs|);
    if gone > 0 {
      var d :| d in lost;
      assert NoWinner(procs, d);
    } else {
      assert lost == {};
      forall d | 1 <= d <= total
        ensures !NoWinner(procs, d)
      {
        assert d in Span(1, total);
      }
    }
  }

  /**
   It happens: with two processes made and the second one freed, half of the draws match nobody, while the first
   process is still there.
   */
  lemma FreedTicketsDrawn(draw: int) returns (states: seq<Sys>, run: seq<Event>)
    requires 11 <= draw <= 20
    ensures IsRun(states, run) && Boot(states[0]) && run == [Alloc(0), Alloc(1), Free(1)]
    ensures states[3].gone == 10 && states[3].total == 20 && |states[3].procs| == 2 && Live(states[3].procs[0])
    ensures NoWinner(states[3].procs, draw)
  {
    var none := Proc(false, 0, 0, 0);
    var first, second := Proc(true, 10, 1, 10), Proc(true, 10, 11, 20);
    var one, two := [first, none], [first, second];
    var left := [first, second.(used := false, tickets := 0)];
    SumOfTwo(none, none);
    SumOfTwo(first, none);
    SumOfTwo(first, second);
    SumOfTwo(Proc(true, 10, 0, 0), none);
    SumOfTwo(first, Proc(true, 10, 0, 0));
    states := [Sys([none, none], 0, 0, [none, none]), Sys(one, 10, 0, one), Sys(two, 20, 0, two),
               Sys(left, 20, 10, two)];
    run := [Alloc(0), Alloc(1), Free(1)];
    hide Sum, Fits;
    assert Changed([none, none], Alloc(0)) == [Proc(true, 10, 0, 0), none];
    assert Changed(one, Alloc(1)) == [first, Proc(true, 10, 0, 0)];
    assert Freed(two, 1) == left;
    assert Next(states[0], run[0], states[1]);
    assert Next(states[1], run[1], states[2]);
    assert Next(states[2], run[2], states[3]);
  }

  lemma SumOfTwo(p: Proc, q: Proc)
    requires 0 <= TicketsOf(p) <= 10 && 0 <= TicketsOf(q) <= 10
    ensures Sum([p, q][..0]) == 0 && Sum([p, q][..1]) == TicketsOf(p) && Sum([p, q]) == TicketsOf(p) + TicketsOf(q)
    ensures Fits([p, q])
  {
    var t := [p, q];
    SumNone(t);
    SumNext(t, 0);
    SumNext(t, 1);
    assert t[..2] == t;
  }

  /**
   And ranges can overlap: 10, -5 and 10 tickets give the ranges 1..10 and 6..15 to the first and the third process.
   */
  lemma OverlappingRanges(procs: seq<Proc>, made: seq<Proc>)
    requires |procs| == 3 && Recalculated(procs, made) && forall i :: 0 <= i < 3 ==> procs[i].used
    requires procs[0].tickets == 10 && procs[1].tickets == -5 && procs[2].tickets == 10
    ensures !Apart(made[0], made[2])
  {
    ApartIff(procs, made, 0, 2);
    SumNext(procs, 1);
  }
}
