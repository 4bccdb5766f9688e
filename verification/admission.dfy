/**
 Log space accounting: begin_op's admission test against log_write's guard.

 Log blocks are reserved, not checked: begin_op admits an operation when the
 blocks already logged plus MAXOPBLOCKS for every operation in progress fit in
 LOGSIZE. This module runs begin_op, log_write and end_op over that accounting
 alone, with log_write's size guard left out, so that the guard can be asked about.
 */
module Admission {
  import opened Blocks
  import opened LogFormat
  import J = Journal

  type Proc = nat

  /** lh, outstanding, committing, and the distinct blocks logged by each operation in progress. */
  datatype State = State(lh: seq<nat>, outstanding: int, committing: bool, ops: map<Proc, set<nat>>)

  datatype Step = Begin(p: Proc) | Log(p: Proc, b: nat) | End(p: Proc) | Erase | Done | Reboot

  const INIT := State([], 0, false, map[])

  /** k is the number of distinct blocks one operation may log. */
  predicate Enabled(k: nat, s: State, t: Step) {
    match t
    case Begin(p) => p !in s.ops && !s.committing && J.Admits(s.lh, s.outstanding)
    case Log(p, b) => p in s.ops && |s.ops[p] + {b}| <= k
    case End(p) => p in s.ops
    case Erase => s.committing
    case Done => s.committing && s.lh == []
    case Reboot => true
  }

  function Apply(k: nat, s: State, t: Step): State
    requires Enabled(k, s, t)
  {
    match t
    case Begin(p) => s.(ops := s.ops[p := {}], outstanding := s.outstanding + 1)
    case Log(p, b) => s.(lh := Absorb(s.lh, b), ops := s.ops[p := s.ops[p] + {b}])
    case End(p) => s.(ops := s.ops - {p}, outstanding := s.outstanding - 1, committing := s.outstanding == 1)
    case Erase => s.(lh := [])
    case Done => s.(committing := false)
    case Reboot => INIT
  }

  predicate Legal(k: nat, steps: seq<Step>)
    decreases |steps|, 0
  {
    steps == [] || (var n := |steps| - 1;
                    Legal(k, steps[..n]) && Enabled(k, After(k, steps[..n]), steps[n]))
  }

  function After(k: nat, steps: seq<Step>): State
    requires Legal(k, steps)
    decreases |steps|, 1
  {
    if steps == [] then INIT
    else
      var n := |steps| - 1;
      Apply(k, After(k, steps[..n]), steps[n])
  }

  /** log_write's size guard, evaluated before absorption (kernel/log.c:220). */
  predicate TooBig(size: nat, s: State) {
    |s.lh| >= LOGSIZE || |s.lh| >= size - 1
  }

  /** The most blocks the log can hold when operations log at most k each. */
  function Peak(k: nat): nat {
    LOGSIZE - 2 * MAXOPBLOCKS + 2 * k
  }

  // ----- the invariant: blocks logged plus blocks still allowed never exceed Peak

  /** How many more distinct blocks the operations in progress may log. */
  ghost function Slack(k: nat, ops: map<Proc, set<nat>>): int
    decreases |ops.Keys|
  {
    if ops == map[] then 0
    else
      var p :| p in ops;
      k - |ops[p]| + Slack(k, ops - {p})
  }

  lemma {:induction false} SlackRemove(k: nat, ops: map<Proc, set<nat>>, p: Proc)
    requires p in ops
    ensures Slack(k, ops) == k - |ops[p]| + Slack(k, ops - {p})
    decreases |ops.Keys|
  {
    var q :| q in ops && Slack(k, ops) == k - |ops[q]| + Slack(k, ops - {q});
    if q != p {
      SlackRemove(k, ops - {q}, p);
      SlackRemove(k, ops - {p}, q);
      assert ops - {q} - {p} == ops - {p} - {q};
    }
  }

  lemma MulStep(k: nat, n: nat)
    ensures k * (n + 1) == k * n + k
  {
  }

  lemma {:induction false} SlackBounds(k: nat, ops: map<Proc, set<nat>>)
    requires forall p :: p in ops ==> |ops[p]| <= k
    ensures 0 <= Slack(k, ops) <= k * |ops|
    decreases |ops.Keys|
  {
    if ops != map[] {
      var p :| p in ops;
      SlackRemove(k, ops, p);
      assert (ops - {p}).Keys == ops.Keys - {p};
      SlackBounds(k, ops - {p});
      var m := |ops - {p}|;
      assert |ops| == m + 1;
      MulStep(k, m);
    }
  }

  ghost predicate Inv(k: nat, s: State) {
    && s.outstanding == |s.ops|
    && (s.committing ==> s.ops == map[])
    && (!s.committing && s.ops == map[] ==> s.lh == [])
    && (forall p :: p in s.ops ==> |s.ops[p]| <= k && forall b :: b in s.ops[p] ==> b in s.lh)
    && |s.lh| + Slack(k, s.ops) <= Peak(k)
  }

  lemma BeginKeeps(k: nat, s: State, p: Proc)
    requires k <= MAXOPBLOCKS && Inv(k, s) && Enabled(k, s, Begin(p))
    ensures Inv(k, Apply(k, s, Begin(p)))
  {
    var r := Apply(k, s, Begin(p));
    assert r.ops - {p} == s.ops;
    assert r.ops.Keys == s.ops.Keys + {p};
    SlackRemove(k, r.ops, p);
    SlackBounds(k, s.ops);
    AdmissionRoom(k, |s.lh|, |s.ops|);
  }

  /** The admission test leaves room for at most two other operations, and for none if they have logged much. */
  lemma AdmissionRoom(k: nat, n: nat, ops: nat)
    requires k <= MAXOPBLOCKS && n + (ops + 1) * MAXOPBLOCKS <= LOGSIZE && (ops == 0 ==> n == 0)
    ensures n + k * ops + k <= Peak(k)
  {
    assert ops <= 2;
    if ops == 0 {
    } else if ops == 1 {
    } else {
    }
  }

  lemma LogKeeps(k: nat, s: State, p: Proc, b: nat)
    requires Inv(k, s) && Enabled(k, s, Log(p, b))
    ensures Inv(k, Apply(k, s, Log(p, b)))
  {
    var r := Apply(k, s, Log(p, b));
    assert r.ops - {p} == s.ops - {p};
    assert r.ops.Keys == s.ops.Keys;
    SlackRemove(k, r.ops, p);
    SlackRemove(k, s.ops, p);
    if b in s.ops[p] {
      assert s.ops[p] + {b} == s.ops[p];
    }
  }

  lemma StepKeeps(k: nat, s: State, t: Step)
    requires k <= MAXOPBLOCKS && Inv(k, s) && Enabled(k, s, t)
    ensures Inv(k, Apply(k, s, t))
  {
    SlackBounds(k, s.ops);
    match t
    case Begin(p) => BeginKeeps(k, s, p);
    case Log(p, b) => LogKeeps(k, s, p, b);
    case End(p) =>
      assert (s.ops - {p}).Keys == s.ops.Keys - {p};
      SlackRemove(k, s.ops, p);
      SlackBounds(k, s.ops - {p});
    case _ =>
  }

  /**
   Log budget: if no operation logs more than k <= MAXOPBLOCKS distinct blocks, admission
   alone keeps the header within Peak(k) on every run, hence within LOGSIZE.
   */
  lemma {:induction false} LogBudget(k: nat, steps: seq<Step>)
    requires k <= MAXOPBLOCKS && Legal(k, steps)
    ensures Inv(k, After(k, steps))
    ensures |After(k, steps).lh| <= Peak(k) <= LOGSIZE
    decreases |steps|
  {
    if steps != [] {
      var n := |steps| - 1;
      LogBudget(k, steps[..n]);
      StepKeeps(k, After(k, steps[..n]), steps[n]);
    }
    SlackBounds(k, After(k, steps).ops);
  }

  // ----- the peak is reached

  /** A step in s that is no commit, and logs one of the n blocks from at, or none, while fewer than n are logged. */
  predicate PlainStep(at: nat, n: nat, s: State, t: Step) {
    match t
    case Begin(_) => true
    case Log(_, b) => at <= b < at + n && |s.lh| < n
    case End(_) => s.outstanding > 1
    case _ => false
  }

  /** All steps of a run are plain. */
  ghost predicate Plain(k: nat, at: nat, n: nat, steps: seq<Step>)
    requires Legal(k, steps)
    decreases |steps|
  {
    steps == [] || (var before := steps[..|steps| - 1];
                    Plain(k, at, n, before) && PlainStep(at, n, After(k, before), steps[|steps| - 1]))
  }

  lemma Extend(k: nat, steps: seq<Step>, t: Step)
    requires Legal(k, steps) && Enabled(k, After(k, steps), t)
    ensures Legal(k, steps + [t])
    ensures After(k, steps + [t]) == Apply(k, After(k, steps), t)
  {
    assert (steps + [t])[..|steps|] == steps;
  }

  lemma ExtendPlain(k: nat, at: nat, n: nat, steps: seq<Step>, t: Step)
    requires Legal(k, steps) && Enabled(k, After(k, steps), t) && Plain(k, at, n, steps)
             && PlainStep(at, n, After(k, steps), t)
    ensures Legal(k, steps + [t]) && After(k, steps + [t]) == Apply(k, After(k, steps), t)
            && Plain(k, at, n, steps + [t])
  {
    assert (steps + [t])[..|steps|] == steps;
  }

  /** i operations log one block each, each starting before the previous one ends; the last is still in progress. */
  lemma {:induction false} Relay(k: nat, at: nat, n: nat, i: nat) returns (steps: seq<Step>)
    requires 1 <= k && i <= n && i <= LOGSIZE - 2 * MAXOPBLOCKS
    ensures Legal(k, steps) && Plain(k, at, n, steps)
    ensures After(k, steps).ops == map[i := {}] && After(k, steps).outstanding == 1 && !After(k, steps).committing
    ensures |After(k, steps).lh| == i && forall b :: b in After(k, steps).lh ==> b < at + i
  {
    if i == 0 {
      ExtendPlain(k, at, n, [], Begin(0));
      steps := [Begin(0)];
      assert [] + [Begin(0)] == steps;
    } else {
      steps := Relay(k, at, n, i - 1);
      steps := RelayOnce(k, at, n, i, steps);
    }
  }

  lemma RelayOnce(k: nat, at: nat, n: nat, i: nat, before: seq<Step>) returns (steps: seq<Step>)
    requires 1 <= k && 0 < i <= n && i <= LOGSIZE - 2 * MAXOPBLOCKS && Legal(k, before) && Plain(k, at, n, before)
    requires After(k, before).ops == map[i - 1 := {}] && After(k, before).outstanding == 1
             && !After(k, before).committing
    requires |After(k, before).lh| == i - 1 && forall b :: b in After(k, before).lh ==> b < at + i - 1
    ensures Legal(k, steps) && Plain(k, at, n, steps)
    ensures After(k, steps).ops == map[i := {}] && After(k, steps).outstanding == 1 && !After(k, steps).committing
    ensures |After(k, steps).lh| == i && forall b :: b in After(k, steps).lh ==> b < at + i
  {
    hide Legal, After, Plain;
    ExtendPlain(k, at, n, before, Begin(i));
    steps := before + [Begin(i)];
    ExtendPlain(k, at, n, steps, Log(i - 1, at + i - 1));
    steps := steps + [Log(i - 1, at + i - 1)];
    ExtendPlain(k, at, n, steps, End(i - 1));
    steps := steps + [End(i - 1)];
  }

  function Range(lo: nat, n: nat): (r: set<nat>)
    ensures |r| == n
    ensures forall b :: b in r <==> lo <= b < lo + n
  {
    if n == 0 then {} else Range(lo, n - 1) + {lo + n - 1}
  }

  /** Operation p, starting with nothing logged, logs j fresh blocks. */
  lemma {:induction false} Fill(k: nat, at: nat, n: nat, before: seq<Step>, p: Proc, lo: nat, j: nat)
    returns (steps: seq<Step>)
    requires Legal(k, before) && Plain(k, at, n, before) && j <= k && at <= lo && lo + j <= at + n
    requires p in After(k, before).ops && After(k, before).ops[p] == {} && |After(k, before).lh| + j <= n
    requires forall b :: b in After(k, before).lh ==> b < lo
    ensures Legal(k, steps) && Plain(k, at, n, steps) && Filled(After(k, before), After(k, steps), p, lo, j)
  {
    hide Legal, After, Apply, Enabled, Plain, Filled, Range;
    if j == 0 {
      steps := before;
      FilledNone(After(k, before), p, lo);
    } else {
      steps := Fill(k, at, n, before, p, lo, j - 1);
      LogOneMore(k, After(k, before), After(k, steps), p, lo, j);
      ExtendPlain(k, at, n, steps, Log(p, lo + j - 1));
      steps := steps + [Log(p, lo + j - 1)];
    }
  }

  /** From s to r, operation p, which had logged nothing, has logged the j blocks from lo. */
  ghost predicate Filled(s: State, r: State, p: Proc, lo: nat, j: nat) {
    && r.ops == s.ops[p := Range(lo, j)]
    && r.outstanding == s.outstanding && r.committing == s.committing
    && |r.lh| == |s.lh| + j && forall b :: b in r.lh ==> b < lo + j
  }

  lemma FilledNone(s: State, p: Proc, lo: nat)
    requires p in s.ops && s.ops[p] == {} && forall b :: b in s.lh ==> b < lo
    ensures Filled(s, s, p, lo, 0)
  {
    assert s.ops[p := {}] == s.ops;
  }

  lemma LogOneMore(k: nat, s: State, m: State, p: Proc, lo: nat, j: nat)
    requires 1 <= j <= k && Filled(s, m, p, lo, j - 1)
    ensures |m.lh| == |s.lh| + j - 1 && Enabled(k, m, Log(p, lo + j - 1))
    ensures Filled(s, Apply(k, m, Log(p, lo + j - 1)), p, lo, j)
  {
    assert Range(lo, j - 1) + {lo + j - 1} == Range(lo, j);
  }

  /**
   Every header length up to the peak occurs at a log_write call of an operation within its budget, before the first
   commit, and with blocks from anywhere on the device.
   */
  lemma PeakReached(k: nat, at: nat, n: nat) returns (steps: seq<Step>, p: Proc, b: nat)
    requires 1 <= k <= MAXOPBLOCKS && n <= Peak(k)
    ensures Legal(k, steps) && Plain(k, at, n, steps) && |After(k, steps).lh| == n
    ensures Enabled(k, After(k, steps), Log(p, b)) && at <= b <= at + n
  {
    var warm := LOGSIZE - 2 * MAXOPBLOCKS;
    if n <= warm {
      steps := Relay(k, at, n, n);
      p, b := n, at;
    } else {
      steps := Relay(k, at, n, warm);
      ExtendPlain(k, at, n, steps, Begin(warm + 1));
      steps := steps + [Begin(warm + 1)];
      var first := if n - warm <= k then n - warm else k;
      steps := Fill(k, at, n, steps, warm, at + warm, first);
      steps := Fill(k, at, n, steps, warm + 1, at + warm + first, n - warm - first);
      p := warm;
      b := at + warm;
      assert After(k, steps).ops[p] + {b} == After(k, steps).ops[p];
    }
  }

  /**
   When log_write's guard can fire. With operations of at most k blocks and a log of size
   blocks, no run ever calls log_write with a header that trips the guard if and only if
   the peak stays below it. For the image mkfs builds (size = LOGSIZE) that is k <= 9, one
   less than the MAXOPBLOCKS that begin_op reserves.
   */
  lemma GuardNeverFiresIff(k: nat, size: nat)
    requires 1 <= k <= MAXOPBLOCKS
    ensures (forall steps, p, b :: Legal(k, steps) && Enabled(k, After(k, steps), Log(p, b))
                                   ==> !TooBig(size, After(k, steps)))
            <==> Peak(k) < LOGSIZE && Peak(k) < size - 1
  {
    if Peak(k) < LOGSIZE && Peak(k) < size - 1 {
      forall steps, p, b | Legal(k, steps) && Enabled(k, After(k, steps), Log(p, b))
        ensures !TooBig(size, After(k, steps))
      {
        LogBudget(k, steps);
      }
    } else {
      var n := if size == 0 then 0 else if size - 1 < LOGSIZE then size - 1 else LOGSIZE;
      var steps, p, b := PeakReached(k, 0, n);
      assert TooBig(size, After(k, steps));
    }
  }

  lemma MkfsGuard(k: nat)
    requires 1 <= k <= MAXOPBLOCKS
    ensures (forall steps, p, b :: Legal(k, steps) && Enabled(k, After(k, steps), Log(p, b))
                                   ==> !TooBig(LOGSIZE, After(k, steps)))
            <==> k < MAXOPBLOCKS
  {
    GuardNeverFiresIff(k, LOGSIZE);
  }

  // ----- the journal's runs are runs of this accounting

  function Logged(ops: map<Proc, J.Op>): map<Proc, set<nat>> {
    map p | p in ops :: ops[p].logged
  }

  function Project(s: J.State): State {
    State(if J.Running(s) then s.lh else [], s.outstanding, s.committing, Logged(s.ops))
  }

  lemma LoggedUpdate(ops: map<Proc, J.Op>, p: Proc, op: J.Op)
    ensures Logged(ops[p := op]) == Logged(ops)[p := op.logged]
    ensures Logged(ops - {p}) == Logged(ops) - {p}
  {
  }

  lemma LoggedKeys(ops: map<Proc, J.Op>)
    ensures Logged(ops).Keys == ops.Keys
    ensures forall p :: p in ops ==> Logged(ops)[p] == ops[p].logged
    ensures ops == map[] ==> Logged(ops) == map[]
  {
  }

  /** The accounting step that a journal step is, if any. */
  function Counts(t: J.Step): seq<Step> {
    match t
    case BeginOp(p) => [Begin(p)]
    case LogWrite(p, b) => [Log(p, b)]
    case EndOp(p) => [End(p)]
    case ClearHead => [Erase]
    case Finish => [Done]
    case Crash => [Reboot]
    case _ => []
  }

  ghost predicate Projects(c: J.Config, s: J.State, t: J.Step, a: seq<Step>)
    requires J.Enabled(c, s, t)
  {
    if a == [] then Project(J.Apply(c, s, t)) == Project(s)
    else Enabled(c.opBlocks, Project(s), a[0]) && Project(J.Apply(c, s, t)) == Apply(c.opBlocks, Project(s), a[0])
  }

  /** One journal step is one accounting step, or none. */
  lemma StepProjects(c: J.Config, s: J.State, t: J.Step)
    requires c.Valid() && J.Inv(c, s) && J.Enabled(c, s, t)
    ensures Projects(c, s, t, Counts(t))
  {
    if t.BeginOp? || t.LogWrite? || t.EndOp? {
      OpProjects(c, s, t);
    } else if t.ClearHead? || t.Finish? || t.Crash? {
      CommitProjects(c, s, t);
    } else {
      QuietProjects(c, s, t);
    }
  }

  lemma OpProjects(c: J.Config, s: J.State, t: J.Step)
    requires c.Valid() && J.Inv(c, s) && J.Enabled(c, s, t) && (t.BeginOp? || t.LogWrite? || t.EndOp?)
    ensures Projects(c, s, t, Counts(t))
  {
    hide J.Replay, J.InvCache, J.InvDisk, J.InvIds, EncodeHeader, DecodeHeader, Logged;
    LoggedKeys(s.ops);
    LoggedKeys(map[]);
    match t
    case BeginOp(p) => LoggedUpdate(s.ops, p, J.Op(s.nextId, {}));
    case LogWrite(p, b) => LoggedUpdate(s.ops, p, s.ops[p].(logged := s.ops[p].logged + {b}));
    case EndOp(p) => LoggedUpdate(s.ops, p, s.ops[p]);
  }

  lemma CommitProjects(c: J.Config, s: J.State, t: J.Step)
    requires c.Valid() && J.Inv(c, s) && J.Enabled(c, s, t) && (t.ClearHead? || t.Finish? || t.Crash?)
    ensures Projects(c, s, t, Counts(t))
  {
    hide J.Replay, J.InvCache, J.InvDisk, J.InvIds, EncodeHeader, DecodeHeader, Logged;
    LoggedKeys(s.ops);
    LoggedKeys(map[]);
  }

  lemma QuietProjects(c: J.Config, s: J.State, t: J.Step)
    requires c.Valid() && J.Inv(c, s) && J.Enabled(c, s, t) && Counts(t) == []
    ensures Project(J.Apply(c, s, t)) == Project(s)
  {
    hide J.Replay, J.InvCache, J.InvDisk, J.InvIds, EncodeHeader, DecodeHeader, Logged;
  }

  lemma {:induction false} RunProjects(c: J.Config, steps: seq<J.Step>) returns (a: seq<Step>)
    requires c.Valid() && J.Legal(c, steps)
    ensures Legal(c.opBlocks, a) && After(c.opBlocks, a) == Project(J.After(c, steps))
    decreases |steps|
  {
    hide J.Inv, J.Enabled, J.Apply, Enabled, Apply, Counts;
    a := [];
    if steps != [] {
      var n := |steps| - 1;
      var before := RunProjects(c, steps[..n]);
      J.RunKeeps(c, steps[..n]);
      StepProjects(c, J.After(c, steps[..n]), steps[n]);
      var b := Counts(steps[n]);
      if b == [] {
        a := before;
      } else {
        Extend(c.opBlocks, before, b[0]);
        a := before + [b[0]];
      }
    }
  }

  /** The journal never halts in log_write when operations log fewer than MAXOPBLOCKS blocks each. */
  lemma JournalNeverTooBig(c: J.Config, steps: seq<J.Step>, p: Proc)
    requires c.Valid() && J.Legal(c, steps) && p in J.After(c, steps).ops
    requires c.opBlocks < MAXOPBLOCKS && LOGSIZE <= c.l.size
    ensures !J.TooBig(c, J.After(c, steps))
  {
    var s := J.After(c, steps);
    var a := RunProjects(c, steps);
    LogBudget(c.opBlocks, a);
    J.RunKeeps(c, steps);
  }

  // ----- and runs of this accounting up to the first commit are runs of the journal

  /** No commit is in progress and no process uses a buffer. */
  ghost predicate Quiet(s: J.State) {
    s.phase.Idle? && forall b :: b in s.cache ==> s.cache[b].owner.None? && s.cache[b].users == {} && !s.cache[b].dirty
  }

  /** Process p holds a valid buffer for b, and nobody uses any other buffer. */
  ghost predicate Holds(s: J.State, p: Proc, b: nat) {
    && s.phase.Idle? && J.OwnedBy(s, p, b) && s.cache[b].valid && !s.cache[b].dirty && s.cache[b].users == {p}
    && forall a :: a in s.cache && a != b ==> s.cache[a].owner.None? && s.cache[a].users == {} && !s.cache[a].dirty
  }

  /** A journal step that the accounting does not see. */
  lemma Unseen(c: J.Config, steps: seq<J.Step>, t: J.Step)
    requires c.Valid() && J.Legal(c, steps) && J.Enabled(c, J.After(c, steps), t) && Counts(t) == []
    ensures J.Legal(c, steps + [t]) && J.After(c, steps + [t]) == J.Apply(c, J.After(c, steps), t)
    ensures Project(J.After(c, steps + [t])) == Project(J.After(c, steps))
  {
    hide J.Legal, J.After, J.Apply, J.Enabled, J.Inv, Project;
    J.RunKeeps(c, steps);
    J.Extend(c, steps, t);
    StepProjects(c, J.After(c, steps), t);
  }

  /** A journal step that the accounting sees. */
  lemma Seen(c: J.Config, steps: seq<J.Step>, t: J.Step, a: Step)
    requires c.Valid() && J.Legal(c, steps) && J.Enabled(c, J.After(c, steps), t) && Counts(t) == [a]
    ensures J.Legal(c, steps + [t]) && J.After(c, steps + [t]) == J.Apply(c, J.After(c, steps), t)
    ensures Enabled(c.opBlocks, Project(J.After(c, steps)), a)
    ensures Project(J.After(c, steps + [t])) == Apply(c.opBlocks, Project(J.After(c, steps)), a)
  {
    hide J.Legal, J.After, J.Apply, J.Enabled, J.Inv, Project, Enabled, Apply;
    J.RunKeeps(c, steps);
    J.Extend(c, steps, t);
    StepProjects(c, J.After(c, steps), t);
  }

  /** bread: process p gets, locks and if need be reads block b. */
  lemma Acquire(c: J.Config, before: seq<J.Step>, p: Proc, b: nat) returns (steps: seq<J.Step>)
    requires c.Valid() && J.Legal(c, before) && Quiet(J.After(c, before)) && c.l.IsHome(b)
    ensures J.Legal(c, steps) && Holds(J.After(c, steps), p, b) && J.After(c, steps).ops == J.After(c, before).ops
    ensures Project(J.After(c, steps)) == Project(J.After(c, before)) && J.After(c, steps).lh == J.After(c, before).lh
  {
    hide J.Legal, J.After, Project;
    DiskSize(c, before);
    Unseen(c, before, J.Bget(p, b, ZERO_BLOCK));
    steps := before + [J.Bget(p, b, ZERO_BLOCK)];
    Unseen(c, steps, J.Lock(p, b));
    steps := steps + [J.Lock(p, b)];
    if !J.After(c, steps).cache[b].valid {
      Unseen(c, steps, J.Load(p, b));
      steps := steps + [J.Load(p, b)];
    }
  }

  lemma DiskSize(c: J.Config, steps: seq<J.Step>)
    requires c.Valid() && J.Legal(c, steps)
    ensures |J.After(c, steps).disk| == c.l.nblocks
  {
    hide J.Legal, J.After, J.InvCache, J.InvDisk, J.InvIds, J.InvControl;
    J.RunKeeps(c, steps);
  }

  /** bread, log_write and brelse of one block. */
  lemma LogBlock(c: J.Config, before: seq<J.Step>, p: Proc, b: nat) returns (steps: seq<J.Step>)
    requires c.Valid() && J.Legal(c, before) && Quiet(J.After(c, before)) && c.l.IsHome(b)
    requires !J.TooBig(c, J.After(c, before)) && p in J.After(c, before).ops
    requires |J.After(c, before).ops[p].logged + {b}| <= c.opBlocks
    ensures J.Legal(c, steps) && Quiet(J.After(c, steps))
    ensures Enabled(c.opBlocks, Project(J.After(c, before)), Log(p, b))
    ensures Project(J.After(c, steps)) == Apply(c.opBlocks, Project(J.After(c, before)), Log(p, b))
  {
    hide J.Legal, J.After, Project, Enabled, Apply;
    steps := Acquire(c, before, p, b);
    Seen(c, steps, J.LogWrite(p, b), Log(p, b));
    steps := steps + [J.LogWrite(p, b)];
    Unseen(c, steps, J.Unlock(p, b));
    steps := steps + [J.Unlock(p, b)];
    Unseen(c, steps, J.Drop(p, b));
    steps := steps + [J.Drop(p, b)];
  }

  /** A plain run of the accounting on home blocks, within the guard, is a run of the journal. */
  lemma {:induction false} Lift(c: J.Config, at: nat, n: nat, a: seq<Step>) returns (steps: seq<J.Step>)
    requires c.Valid() && Legal(c.opBlocks, a) && Plain(c.opBlocks, at, n, a) && n <= LOGSIZE && n <= c.l.size - 1
    requires forall b :: at <= b <= at + n ==> c.l.IsHome(b)
    ensures J.Legal(c, steps) && Quiet(J.After(c, steps)) && Project(J.After(c, steps)) == After(c.opBlocks, a)
    decreases |a|
  {
    if a == [] {
      steps := [];
    } else {
      var before := a[..|a| - 1];
      steps := Lift(c, at, n, before);
      steps := LiftStep(c, at, n, before, a[|a| - 1], steps);
    }
  }

  lemma LiftStep(c: J.Config, at: nat, n: nat, a: seq<Step>, t: Step, before: seq<J.Step>) returns (steps: seq<J.Step>)
    requires c.Valid() && Legal(c.opBlocks, a) && n <= LOGSIZE && n <= c.l.size - 1
    requires forall b :: at <= b <= at + n ==> c.l.IsHome(b)
    requires Enabled(c.opBlocks, After(c.opBlocks, a), t) && PlainStep(at, n, After(c.opBlocks, a), t)
    requires J.Legal(c, before) && Quiet(J.After(c, before)) && Project(J.After(c, before)) == After(c.opBlocks, a)
    ensures J.Legal(c, steps) && Quiet(J.After(c, steps))
    ensures Project(J.After(c, steps)) == Apply(c.opBlocks, After(c.opBlocks, a), t)
  {
    hide J.Legal, J.After, Legal, After, Logged;
    LoggedKeys(J.After(c, before).ops);
    match t
    case Begin(p) =>
      Seen(c, before, J.BeginOp(p), t);
      steps := before + [J.BeginOp(p)];
    case Log(p, b) =>
      steps := LogBlock(c, before, p, b);
    case End(p) =>
      Seen(c, before, J.EndOp(p), t);
      steps := before + [J.EndOp(p)];
  }

  /** Process p is about to call log_write on a block it may log. */
  ghost predicate Calls(c: J.Config, s: J.State, p: Proc, b: nat) {
    J.CanModify(s, p, b) && |s.ops[p].logged + {b}| <= c.opBlocks
  }

  /**
   The journal's log_write never panics on its size if and only if the peak stays below the guard: on a device with
   a run of home blocks as long as the log, and operations that log at most opBlocks blocks.
   */
  lemma JournalGuardIff(c: J.Config, at: nat)
    requires c.Valid() && 1 <= c.opBlocks <= MAXOPBLOCKS
    requires forall b :: at <= b <= at + LOGSIZE ==> c.l.IsHome(b)
    ensures (forall steps, p, b :: J.Legal(c, steps) && Calls(c, J.After(c, steps), p, b) ==>
             !J.TooBig(c, J.After(c, steps)))
            <==> Peak(c.opBlocks) < LOGSIZE && Peak(c.opBlocks) < c.l.size - 1
  {
    hide J.Legal, J.After;
    if Peak(c.opBlocks) < LOGSIZE && Peak(c.opBlocks) < c.l.size - 1 {
      forall steps, p, b | J.Legal(c, steps) && Calls(c, J.After(c, steps), p, b)
        ensures !J.TooBig(c, J.After(c, steps))
      {
        BelowPeak(c, steps, p);
      }
    } else {
      var steps, p, b := JournalTooBig(c, at);
      assert J.Legal(c, steps) && Calls(c, J.After(c, steps), p, b) && J.TooBig(c, J.After(c, steps));
    }
  }

  lemma BelowPeak(c: J.Config, steps: seq<J.Step>, p: Proc)
    requires c.Valid() && c.opBlocks <= MAXOPBLOCKS && J.Legal(c, steps) && p in J.After(c, steps).ops
    ensures |J.After(c, steps).lh| <= Peak(c.opBlocks)
  {
    hide J.Legal, J.After, Legal, After, J.InvCache, J.InvDisk, J.InvIds, J.InvShape;
    var a := RunProjects(c, steps);
    LogBudget(c.opBlocks, a);
    J.RunKeeps(c, steps);
  }

  /** A run that trips the guard, where the peak does not stay below it. */
  lemma JournalTooBig(c: J.Config, at: nat) returns (steps: seq<J.Step>, p: Proc, b: nat)
    requires c.Valid() && 1 <= c.opBlocks <= MAXOPBLOCKS
    requires forall b :: at <= b <= at + LOGSIZE ==> c.l.IsHome(b)
    requires Peak(c.opBlocks) >= LOGSIZE || Peak(c.opBlocks) >= c.l.size - 1
    ensures J.Legal(c, steps) && Calls(c, J.After(c, steps), p, b) && J.TooBig(c, J.After(c, steps))
  {
    hide J.Legal, J.After, Legal, After, Plain, Logged;
    var n := if c.l.size - 1 < LOGSIZE then c.l.size - 1 else LOGSIZE;
    var a;
    a, p, b := PeakReached(c.opBlocks, at, n);
    steps := Lift(c, at, n, a);
    LoggedKeys(J.After(c, steps).ops);
    steps := Acquire(c, steps, p, b);
  }

  /** On a device as mkfs lays it out, that is so exactly if operations log fewer than MAXOPBLOCKS blocks. */
  lemma MkfsJournalGuard(k: nat) returns (c: J.Config)
    requires 1 <= k <= MAXOPBLOCKS
    ensures c.Valid() && c.l == Layout(1000, 2, LOGSIZE) && c.opBlocks == k
    ensures (forall steps, p, b :: J.Legal(c, steps) && Calls(c, J.After(c, steps), p, b) ==>
             !J.TooBig(c, J.After(c, steps)))
            <==> k < MAXOPBLOCKS
  {
    hide DecodeHeader, HeaderOk, EncodeHeader, J.Legal, J.After;
    var empty := EncodeHeader(ZERO_BLOCK, []);
    c := J.Config(Layout(1000, 2, LOGSIZE), seq(1000, i => if i == 2 then empty else ZERO_BLOCK), k);
    JournalGuardIff(c, 2 + LOGSIZE);
  }
}
