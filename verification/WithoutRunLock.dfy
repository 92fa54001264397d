/**
  Why completeStep locks the run's row first: module Interleaving with the lock left out
  has a run that loses a wake-up.
 */
module WithoutRunLock {
  import opened Wrappers
  import opened WorkflowSpecs
  import opened Bindings
  import opened Runs
  import opened RunInvariants
  import opened Interleaving
  import opened InterleavingProofs
  import opened SerialRuns

  /** The steps of module Interleaving, except that nobody waits for the run's row. */
  ghost predicate CanStepUnlocked(s: System, a: Action) {
    match a
    case BeginLater(tid, n, _) =>
      tid !in s.open && n in s.committed.executions && s.committed.executions[n].attempts > 0
    case Issue(tid, statement) =>
      && tid in s.open && s.open[tid].node in s.committed.executions
      && Reached(s.committed, s.open[tid], statement)
      && (statement.LockRun? || statement.MarkRunFailed? || Unblocked(s, tid, statement))
    case _ => CanStep(s, a)
  }

  ghost function DoStepUnlocked(s: System, a: Action): System
    requires CanStepUnlocked(s, a)
  {
    match a
    case BeginLater(tid, n, output) =>
      s.(open := s.open[tid := Txn(n, None, output, RunLocked, map[], map[], map[], None)])
    case Issue(tid, statement) => s.(open := s.open[tid := Advance(s.committed, s.open[tid], statement)])
    case _ => DoStep(s, a)
  }

  ghost predicate IsUnlocked(systems: seq<System>, actions: seq<Action>, spec: Spec, input: Record) {
    && |systems| == |actions| + 1
    && systems[0] == System(Submitted(spec, input), map[])
    && forall i {:trigger actions[i]} :: 0 <= i < |actions| ==>
         CanStepUnlocked(systems[i], actions[i]) && systems[i + 1] == DoStepUnlocked(systems[i], actions[i])
  }

  lemma UnlockedOneMore(systems: seq<System>, actions: seq<Action>, spec: Spec, input: Record, a: Action)
    requires IsUnlocked(systems, actions, spec, input) && CanStepUnlocked(systems[|actions|], a)
    ensures IsUnlocked(systems + [DoStepUnlocked(systems[|actions|], a)], actions + [a], spec, input)
  {
  }

  /** Two independent steps and one that waits for both. */
  ghost predicate Siblings(spec: Spec, x: NodeId, y: NodeId, n: NodeId) {
    && Plain(spec) && Ids(spec) == {x, y, n} && x != y && n != x && n != y
    && Deps(spec, x) == {} && Deps(spec, y) == {} && Deps(spec, n) == {x, y}
  }

  /** The rows just after the submission of such a document. */
  ghost predicate Fresh(c: Run, x: NodeId, y: NodeId, n: NodeId) {
    && Siblings(c.spec, x, y, n) && c.executions.Keys == {x, y, n} && c.status == RunRunning
    && c.outputs == map[] && c.checkpoints == map[]
    && c.executions[x].status == Queued && c.executions[y].status == Queued && c.executions[n].status == Blocked
  }

  lemma SubmittedIsFresh(spec: Spec, input: Record, x: NodeId, y: NodeId, n: NodeId)
    requires Siblings(spec, x, y, n)
    ensures Fresh(Submitted(spec, input), x, y, n)
  {
    var _ := PlainStep(spec, x);
  }

  /** A completion of `node` that has written no row but its own. */
  ghost predicate Lone(c: Run, t: Txn, node: NodeId) {
    && TxnInv(c, t) && t.node == node && t.lease.Some? && t.status == None
    && t.rows.Keys == {node} && t.outputs.Keys <= {node}
    && !t.phase.RunMarkedFailed? && !t.phase.Sweeping?
  }

  /** The waiting step is not ready for a completion that sees one sibling only. */
  lemma NothingToPromote(c: Run, t: Txn, x: NodeId, y: NodeId, n: NodeId, node: NodeId, m: NodeId)
    requires Fresh(c, x, y, n) && node in {x, y} && Lone(c, t, node) && t.phase.Promoting? && m in c.executions
    ensures !(Ready(c.spec, m, t.phase.completed) && View(c, t).executions[m].status == Blocked)
  {
    ExpectedMarksDone(c, t);
    assert t.phase.completed <= {node};
    if m != node {
      assert View(c, t).executions[m] == c.executions[m];
      assert x in Deps(c.spec, n) && y in Deps(c.spec, n);
    }
  }

  /** The waiting step is missing from what a lone completion has read. */
  lemma NotAllCompleted(c: Run, t: Txn, x: NodeId, y: NodeId, n: NodeId, node: NodeId)
    requires Fresh(c, x, y, n) && node in {x, y} && Lone(c, t, node) && t.phase.Promoting?
    ensures !(Ids(c.spec) <= t.phase.completed)
  {
    assert t.phase.completed <= {node};
    assert n in Ids(c.spec);
  }

  lemma LoneStatus(c: Run, t: Txn, output: Record)
    requires t.node in c.executions && t.status == None
    requires t.phase.Promoting? ==> !(Ids(c.spec) <= t.phase.completed)
    requires (t.phase.Claimed? || Completing(t)) && Reached(c, t, NextStatement(t, |c.spec.steps|, output))
    ensures Advance(c, t, NextStatement(t, |c.spec.steps|, output)).status == None
  {
  }

  /** One statement of a lone completion. */
  lemma LoneStep(c: Run, t: Txn, x: NodeId, y: NodeId, n: NodeId, node: NodeId, output: Record)
    requires Fresh(c, x, y, n) && node in {x, y} && Lone(c, t, node) && !t.phase.Completed?
    ensures var st := NextStatement(t, |c.spec.steps|, output);
            && Reached(c, t, st) && Lone(c, Advance(c, t, st), node)
            && StatementsLeft(Advance(c, t, st), |c.spec.steps|) == StatementsLeft(t, |c.spec.steps|) - 1
            && Advance(c, t, st).output == (if t.phase.Claimed? then output else t.output)
            && !Advance(c, t, st).phase.Claimed?
  {
    var st := NextStatement(t, |c.spec.steps|, output);
    assert Shape(c, t);
    CompletionAdvances(c, t, output);
    if t.phase.Promoting? {
      NotAllCompleted(c, t, x, y, n, node);
      if t.phase.next < |c.spec.steps| {
        NothingToPromote(c, t, x, y, n, node, NextNode(c.spec, t.phase.next));
      }
    }
    LoneStatus(c, t, output);
    AdvanceInv(c, t, st);
    LoneRows(c, t, node, st);
  }

  lemma LoneRows(c: Run, t: Txn, node: NodeId, st: Statement)
    requires t.node == node && node in c.executions && t.rows.Keys == {node} && t.outputs.Keys <= {node}
    requires Reached(c, t, st) && !st.SweepRow?
    requires st.PromoteNext? ==>
               !(Ready(c.spec, NextNode(c.spec, t.phase.next), t.phase.completed)
                 && View(c, t).executions[NextNode(c.spec, t.phase.next)].status == Blocked)
    ensures Advance(c, t, st).rows.Keys == {node} && Advance(c, t, st).outputs.Keys <= {node}
  {
  }

  /** A lone completion of `node` that can be driven on. */
  ghost predicate Drivable(s: System, x: NodeId, y: NodeId, n: NodeId, tid: nat, node: NodeId, output: Record) {
    && Fresh(s.committed, x, y, n) && node in {x, y} && tid in s.open && Lone(s.committed, s.open[tid], node)
    && RowFree(s, tid, node) && (s.open[tid].phase.Claimed? || s.open[tid].output == output)
  }

  /** The statements transaction `tid` of a state has left. */
  function Left(s: System, tid: nat): int
    requires tid in s.open
  {
    StatementsLeft(s.open[tid], |s.committed.spec.steps|)
  }

  lemma DriveOne(s: System, x: NodeId, y: NodeId, n: NodeId, tid: nat, node: NodeId, output: Record) returns (a: Action)
    requires Drivable(s, x, y, n, tid, node, output) && !s.open[tid].phase.Completed?
    ensures CanStepUnlocked(s, a)
    ensures var s' := DoStepUnlocked(s, a);
            && Drivable(s', x, y, n, tid, node, output) && s' == s.(open := s.open[tid := s'.open[tid]])
            && Left(s', tid) == Left(s, tid) - 1
  {
    var c, t := s.committed, s.open[tid];
    var st := NextStatement(t, |c.spec.steps|, output);
    LoneStep(c, t, x, y, n, node, output);
    DriveUnblocked(s, tid, x, y, n, node, st);
    a := Issue(tid, st);
  }

  /** It runs to its end, statement by statement, while the other transactions stand
      still. */
  lemma {:induction false} Drive(
    systems: seq<System>, actions: seq<Action>, spec: Spec, input: Record,
    x: NodeId, y: NodeId, n: NodeId, tid: nat, node: NodeId, output: Record)
    returns (systems': seq<System>, actions': seq<Action>)
    requires IsUnlocked(systems, actions, spec, input)
    requires Drivable(systems[|actions|], x, y, n, tid, node, output)
    ensures IsUnlocked(systems', actions', spec, input)
    ensures Driven(systems[|actions|], systems'[|actions'|], tid, node, output)
    decreases if systems[|actions|].open[tid].phase.Completed? then 0 else 1 + Left(systems[|actions|], tid)
  {
    var s := systems[|actions|];
    if s.open[tid].phase.Completed? {
      DrivenHere(s, x, y, n, tid, node, output);
      systems', actions' := systems, actions;
    } else {
      LeftIsPositive(s, x, y, n, tid, node, output);
      var a := DriveOne(s, x, y, n, tid, node, output);
      var s' := DoStepUnlocked(s, a);
      UnlockedOneMore(systems, actions, spec, input, a);
      systems', actions' := Drive(systems + [s'], actions + [a], spec, input, x, y, n, tid, node, output);
      DrivenOn(s, s', systems'[|actions'|], tid, node, output);
    }
  }

  lemma LeftIsPositive(s: System, x: NodeId, y: NodeId, n: NodeId, tid: nat, node: NodeId, output: Record)
    requires Drivable(s, x, y, n, tid, node, output) && !s.open[tid].phase.Completed?
    ensures Left(s, tid) > 0
  {
    assert Shape(s.committed, s.open[tid]);
    SomethingLeft(s.open[tid], |s.committed.spec.steps|);
  }

  lemma SomethingLeft(t: Txn, steps: nat)
    requires t.phase.Promoting? ==> t.phase.next <= steps
    requires !t.phase.Completed? && !t.phase.RunMarkedFailed? && !t.phase.Sweeping?
    ensures StatementsLeft(t, steps) > 0
  {
  }

  /** Transaction `tid` has come to its end and nothing else has moved. */
  ghost predicate Driven(s: System, s': System, tid: nat, node: NodeId, output: Record) {
    && tid in s.open && tid in s'.open && s' == s.(open := s.open[tid := s'.open[tid]])
    && Lone(s.committed, s'.open[tid], node) && s'.open[tid].phase.Completed? && s'.open[tid].output == output
  }

  lemma DrivenHere(s: System, x: NodeId, y: NodeId, n: NodeId, tid: nat, node: NodeId, output: Record)
    requires Drivable(s, x, y, n, tid, node, output) && s.open[tid].phase.Completed?
    ensures Driven(s, s, tid, node, output)
  {
    assert s.open == s.open[tid := s.open[tid]];
  }

  lemma DrivenOn(s: System, s1: System, s2: System, tid: nat, node: NodeId, output: Record)
    requires tid in s.open && tid in s1.open && s1 == s.(open := s.open[tid := s1.open[tid]])
    requires Driven(s1, s2, tid, node, output)
    ensures Driven(s, s2, tid, node, output)
  {
    assert s.open[tid := s1.open[tid]][tid := s2.open[tid]] == s.open[tid := s2.open[tid]];
  }

  lemma DriveUnblocked(s: System, tid: nat, x: NodeId, y: NodeId, n: NodeId, node: NodeId, st: Statement)
    requires Fresh(s.committed, x, y, n) && node in {x, y} && tid in s.open && Lone(s.committed, s.open[tid], node)
    requires RowFree(s, tid, node) && Reached(s.committed, s.open[tid], st)
    requires !st.MarkRowFailed? && !st.SweepRow?
    ensures CanStepUnlocked(s, Issue(tid, st))
  {
    if st.PromoteNext? {
      var t := s.open[tid];
      NothingToPromote(s.committed, t, x, y, n, node, NextNode(s.committed.spec, t.phase.next));
    }
  }

  /** A claim of one of the siblings. */
  lemma ClaimIsLone(s: System, x: NodeId, y: NodeId, n: NodeId, tid: nat, node: NodeId, lease: Lease)
    requires Fresh(s.committed, x, y, n) && node in {x, y} && tid !in s.open && RowFree(s, tid, node)
    ensures CanStepUnlocked(s, BeginClaim(tid, node, lease))
    ensures var s' := DoStepUnlocked(s, BeginClaim(tid, node, lease));
            && tid in s'.open && s' == s.(open := s.open[tid := s'.open[tid]])
            && Lone(s.committed, s'.open[tid], node) && s'.open[tid].phase.Claimed?
  {
    ClaimedTxn(s.committed, DoStepUnlocked(s, BeginClaim(tid, node, lease)).open[tid], node, lease);
  }

  lemma CompletedOutputs(base: Run, n: NodeId, output: Record)
    requires n in base.executions && base.outputs == map[]
    ensures CompleteStep(base, n, output).outputs == map[n := output]
  {
  }

  /** What a completed sibling has written. */
  lemma LoneCompletion(c: Run, t: Txn, x: NodeId, y: NodeId, n: NodeId, node: NodeId)
    requires Fresh(c, x, y, n) && node in {x, y} && Lone(c, t, node) && t.phase.Completed?
    ensures t.rows.Keys == {node} && t.rows[node].status == Done && t.outputs == map[node := t.output]
  {
    ExpectedMarksDone(c, t);
    CompletedView(c, t);
    CompletedOutputs(Base(c, t), node, t.output);
    LoneView(c, t, node);
  }

  lemma LoneView(c: Run, t: Txn, node: NodeId)
    requires t.rows.Keys == {node} && c.outputs == map[]
    ensures View(c, t).executions[node] == t.rows[node] && View(c, t).outputs == t.outputs
  {
  }

  /** Nothing can be claimed any more, whatever the time. */
  ghost predicate Stuck(run: Run) {
    forall n :: n in run.executions ==> run.executions[n].status in {Blocked, Done}
  }

  /** The rows after two commits that wrote a row each. */
  lemma BothViews(c: Run, x: NodeId, y: NodeId, n: NodeId, tx: Txn, ty: Txn)
    requires c.executions.Keys == {x, y, n} && n != x && n != y && c.executions[n].status == Blocked
    requires tx.rows.Keys == {x} && tx.rows[x].status == Done && ty.rows.Keys == {y} && ty.rows[y].status == Done
    ensures var r := View(View(c, tx), ty);
            n in r.executions && r.executions[n].status == Blocked && Stuck(r)
  {
    var r := View(View(c, tx), ty);
    assert r.executions == c.executions + tx.rows + ty.rows;
  }

  lemma BothOutputs(c: Run, x: NodeId, y: NodeId, tx: Txn, ty: Txn)
    requires c.outputs == map[] && tx.status == None && ty.status == None && x != y
    requires tx.outputs == map[x := tx.output] && ty.outputs == map[y := ty.output]
    ensures var r := View(View(c, tx), ty);
            r.spec == c.spec && r.status == c.status && r.outputs == map[x := tx.output, y := ty.output]
  {
    PairOfOutputs(c.outputs, x, y, tx.output, ty.output);
  }

  lemma PairOfOutputs(none: Outputs, x: NodeId, y: NodeId, outX: Record, outY: Record)
    requires none == map[] && x != y
    ensures none + map[x := outX] + map[y := outY] == map[x := outX, y := outY]
  {
  }

  lemma BothCommitted(c: Run, x: NodeId, y: NodeId, n: NodeId, tx: Txn, ty: Txn)
    requires Fresh(c, x, y, n)
    requires Lone(c, tx, x) && tx.phase.Completed? && Lone(c, ty, y) && ty.phase.Completed?
    ensures LostWakeup(View(View(c, tx), ty), x, y, n, tx.output, ty.output)
  {
    LoneCompletion(c, tx, x, y, n, x);
    LoneCompletion(c, ty, x, y, n, y);
    BothResults(c, x, y, n, tx, ty);
  }

  lemma BothResults(c: Run, x: NodeId, y: NodeId, n: NodeId, tx: Txn, ty: Txn)
    requires Fresh(c, x, y, n) && tx.status == None && ty.status == None
    requires tx.rows.Keys == {x} && tx.rows[x].status == Done && tx.outputs == map[x := tx.output]
    requires ty.rows.Keys == {y} && ty.rows[y].status == Done && ty.outputs == map[y := ty.output]
    ensures LostWakeup(View(View(c, tx), ty), x, y, n, tx.output, ty.output)
  {
    BothViews(c, x, y, n, tx, ty);
    BothOutputs(c, x, y, tx, ty);
    WaitsForRecorded(c.spec, x, y, n, View(View(c, tx), ty));
  }

  lemma WaitsForRecorded(spec: Spec, x: NodeId, y: NodeId, n: NodeId, r: Run)
    requires Siblings(spec, x, y, n) && r.spec == spec && {x, y} <= r.outputs.Keys
    requires n in r.executions && r.executions[n].status == Blocked
    ensures !NoLostWakeup(r)
  {
  }

  /** The run is running with both siblings recorded, the step that waits for them blocked,
      and nothing left to claim. */
  ghost predicate LostWakeup(r: Run, x: NodeId, y: NodeId, n: NodeId, outX: Record, outY: Record) {
    && r.outputs == map[x := outX, y := outY] && r.status == RunRunning
    && n in r.executions && r.executions[n].status == Blocked && Stuck(r) && !NoLostWakeup(r)
  }

  /**
    Without the run lock, two sibling completions that both read the completed ids before
    either commits leave their common dependent blocked with every output it waits for
    recorded, and the run running with nothing left to claim, forever.
   */
  lemma LostWakeupWithoutLock(
    spec: Spec, input: Record, x: NodeId, y: NodeId, n: NodeId, outX: Record, outY: Record, lease: Lease)
    returns (systems: seq<System>, actions: seq<Action>)
    requires Siblings(spec, x, y, n)
    ensures IsUnlocked(systems, actions, spec, input) && systems[|actions|].open == map[]
    ensures LostWakeup(systems[|actions|].committed, x, y, n, outX, outY)
  {
    systems, actions := ClaimFirst(spec, input, x, y, n, lease);
    systems, actions := ClaimSecond(systems, actions, spec, input, x, y, n, lease);
    systems, actions := DriveFirst(systems, actions, spec, input, x, y, n, outX);
    systems, actions := DriveSecond(systems, actions, spec, input, x, y, n, outY);
    systems, actions := CommitBoth(systems, actions, spec, input, x, y, n);
  }

  /** Both siblings are claimed by open transactions, neither of which has written a row of
      the other. */
  ghost predicate BothOpen(s: System, x: NodeId, y: NodeId, n: NodeId) {
    && Fresh(s.committed, x, y, n) && s.open.Keys == {0, 1}
    && Lone(s.committed, s.open[0], x) && Lone(s.committed, s.open[1], y)
  }

  lemma DriveFirst(
    systems: seq<System>, actions: seq<Action>, spec: Spec, input: Record,
    x: NodeId, y: NodeId, n: NodeId, outX: Record)
    returns (systems': seq<System>, actions': seq<Action>)
    requires IsUnlocked(systems, actions, spec, input) && BothOpen(systems[|actions|], x, y, n)
    requires systems[|actions|].open[0].phase.Claimed? && systems[|actions|].open[1].phase.Claimed?
    ensures IsUnlocked(systems', actions', spec, input)
    ensures var s' := systems'[|actions'|];
            && BothOpen(s', x, y, n) && s'.open[1].phase.Claimed?
            && s'.open[0].phase.Completed? && s'.open[0].output == outX
  {
    FirstIsDrivable(systems[|actions|], x, y, n, outX);
    systems', actions' := Drive(systems, actions, spec, input, x, y, n, 0, x, outX);
    FirstIsDriven(systems[|actions|], systems'[|actions'|], x, y, n, outX);
  }

  lemma FirstIsDrivable(s: System, x: NodeId, y: NodeId, n: NodeId, outX: Record)
    requires BothOpen(s, x, y, n) && s.open[0].phase.Claimed?
    ensures Drivable(s, x, y, n, 0, x, outX)
  {
  }

  lemma FirstIsDriven(s: System, s': System, x: NodeId, y: NodeId, n: NodeId, outX: Record)
    requires BothOpen(s, x, y, n) && Driven(s, s', 0, x, outX)
    ensures BothOpen(s', x, y, n) && s'.open[1] == s.open[1]
    ensures s'.open[0].phase.Completed? && s'.open[0].output == outX
  {
  }

  lemma SecondIsDrivable(s: System, x: NodeId, y: NodeId, n: NodeId, outY: Record)
    requires BothOpen(s, x, y, n) && s.open[1].phase.Claimed?
    ensures Drivable(s, x, y, n, 1, y, outY)
  {
  }

  lemma SecondIsDriven(s: System, s': System, x: NodeId, y: NodeId, n: NodeId, outY: Record)
    requires BothOpen(s, x, y, n) && Driven(s, s', 1, y, outY)
    ensures BothOpen(s', x, y, n) && s'.open[0] == s.open[0]
    ensures s'.open[1].phase.Completed? && s'.open[1].output == outY
  {
  }

  lemma DriveSecond(
    systems: seq<System>, actions: seq<Action>, spec: Spec, input: Record,
    x: NodeId, y: NodeId, n: NodeId, outY: Record)
    returns (systems': seq<System>, actions': seq<Action>)
    requires IsUnlocked(systems, actions, spec, input) && BothOpen(systems[|actions|], x, y, n)
    requires systems[|actions|].open[0].phase.Completed? && systems[|actions|].open[1].phase.Claimed?
    ensures IsUnlocked(systems', actions', spec, input)
    ensures var s' := systems'[|actions'|];
            && BothOpen(s', x, y, n) && s'.open[0] == systems[|actions|].open[0]
            && s'.open[1].phase.Completed? && s'.open[1].output == outY
  {
    SecondIsDrivable(systems[|actions|], x, y, n, outY);
    systems', actions' := Drive(systems, actions, spec, input, x, y, n, 1, y, outY);
    SecondIsDriven(systems[|actions|], systems'[|actions'|], x, y, n, outY);
  }

  lemma ClaimFirst(spec: Spec, input: Record, x: NodeId, y: NodeId, n: NodeId, lease: Lease)
    returns (systems: seq<System>, actions: seq<Action>)
    requires Siblings(spec, x, y, n)
    ensures IsUnlocked(systems, actions, spec, input)
    ensures var s := systems[|actions|];
            && Fresh(s.committed, x, y, n) && s.open.Keys == {0}
            && Lone(s.committed, s.open[0], x) && s.open[0].phase.Claimed?
  {
    var s, a := System(Submitted(spec, input), map[]), BeginClaim(0, x, lease);
    SubmittedIsFresh(spec, input, x, y, n);
    ClaimIsLone(s, x, y, n, 0, x, lease);
    UnlockedOneMore([s], [], spec, input, a);
    systems, actions := [s] + [DoStepUnlocked(s, a)], [] + [a];
  }

  lemma ClaimSecond(
    systems: seq<System>, actions: seq<Action>, spec: Spec, input: Record,
    x: NodeId, y: NodeId, n: NodeId, lease: Lease)
    returns (systems': seq<System>, actions': seq<Action>)
    requires IsUnlocked(systems, actions, spec, input) && x != y
    requires var s := systems[|actions|];
             && Fresh(s.committed, x, y, n) && s.open.Keys == {0}
             && Lone(s.committed, s.open[0], x) && s.open[0].phase.Claimed?
    ensures IsUnlocked(systems', actions', spec, input)
    ensures var s, s' := systems[|actions|], systems'[|actions'|];
            BothOpen(s', x, y, n) && s'.open[0] == s.open[0] && s'.open[1].phase.Claimed?
  {
    var s, a := systems[|actions|], BeginClaim(1, y, lease);
    ClaimIsLone(s, x, y, n, 1, y, lease);
    UnlockedOneMore(systems, actions, spec, input, a);
    systems', actions' := systems + [DoStepUnlocked(s, a)], actions + [a];
  }

  lemma CommitOne(systems: seq<System>, actions: seq<Action>, spec: Spec, input: Record, tid: nat)
    returns (systems': seq<System>, actions': seq<Action>)
    requires IsUnlocked(systems, actions, spec, input)
    requires tid in systems[|actions|].open && systems[|actions|].open[tid].phase.Completed?
    ensures IsUnlocked(systems', actions', spec, input)
    ensures var s := systems[|actions|];
            systems'[|actions'|] == System(View(s.committed, s.open[tid]), s.open - {tid})
  {
    var s, a := systems[|actions|], Commit(tid);
    UnlockedOneMore(systems, actions, spec, input, a);
    systems', actions' := systems + [DoStepUnlocked(s, a)], actions + [a];
  }

  lemma CommitBoth(
    systems: seq<System>, actions: seq<Action>, spec: Spec, input: Record, x: NodeId, y: NodeId, n: NodeId)
    returns (systems': seq<System>, actions': seq<Action>)
    requires IsUnlocked(systems, actions, spec, input)
    requires var s := systems[|actions|];
             BothOpen(s, x, y, n) && s.open[0].phase.Completed? && s.open[1].phase.Completed?
    ensures IsUnlocked(systems', actions', spec, input) && systems'[|actions'|].open == map[]
    ensures var s := systems[|actions|];
            LostWakeup(systems'[|actions'|].committed, x, y, n, s.open[0].output, s.open[1].output)
  {
    var s := systems[|actions|];
    systems', actions' := CommitOne(systems, actions, spec, input, 0);
    systems', actions' := CommitOne(systems', actions', spec, input, 1);
    BothCommitted(s.committed, x, y, n, s.open[0], s.open[1]);
    assert s.open - {0} - {1} == map[];
  }

  /** Such a document exists. */
  lemma SiblingsExist() returns (spec: Spec)
    ensures Siblings(spec, "x", "y", "n")
  {
    var sx, sy := Step("x", "s", "o", [], []), Step("y", "s", "o", [], []);
    var sn := Step("n", "s", "o", ["x", "y"], []);
    spec := Spec([StepNode(sx), StepNode(sy), StepNode(sn)], [], []);
    FindStepAt(spec.steps, 0);
    FindStepAt(spec.steps, 1);
    FindStepAt(spec.steps, 2);
    assert spec.steps[0].Id() == "x" && spec.steps[1].Id() == "y" && spec.steps[2].Id() == "n";
    assert Ids(spec) == {"x", "y", "n"};
    assert CollectStepReferenceIds(sn) == ["x", "y"];
  }
}
