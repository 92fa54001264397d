/**
  What every committed transaction keeps of a run: no lost wake-up, dependency safety,
  write-once outputs, an absorbing failure, and a measure the worker's transactions
  decrease.
 */
module RunInvariants {
  import opened WorkflowSpecs
  import opened Runs

  /** A node is blocked only while some dependency has no recorded output, and a run
      that has not failed is done exactly when every node has an output. */
  ghost predicate NoLostWakeup(run: Run) {
    && (forall n :: n in run.executions && run.executions[n].status == Blocked ==>
          !(Deps(run.spec, n) <= run.outputs.Keys))
    && (run.status != RunFailed ==> (run.status == RunDone <==> Ids(run.spec) <= run.outputs.Keys))
  }

  /** Whatever is queued, running, done or was ever claimed has the output of each of
      its dependencies. */
  ghost predicate DependencySafe(run: Run) {
    forall n :: n in run.executions &&
                (run.executions[n].status in {Queued, Running, Done} || run.executions[n].attempts > 0) ==>
      Deps(run.spec, n) <= run.outputs.Keys
  }

  /** A failed run has nothing left to claim for the first time; only a failed run has
      failed nodes. */
  ghost predicate FailureContained(run: Run) {
    if run.status == RunFailed
    then forall n :: n in run.executions ==> !Unclaimed(run.executions[n].status)
    else forall n :: n in run.executions ==> run.executions[n].status != Failed
  }

  /** A node is done exactly when its output and its checkpoint are recorded, and the
      two are equal. */
  ghost predicate OutputsMatch(run: Run) {
    && run.checkpoints == run.outputs
    && run.executions.Keys == Ids(run.spec)
    && (forall n :: n in run.outputs <==> n in run.executions && run.executions[n].status == Done)
  }

  /** No transaction of this model parks a node in a durable wait. */
  ghost predicate NoneWaiting(run: Run) {
    forall n :: n in run.executions ==> run.executions[n].status != Waiting
  }

  ghost predicate Inv(run: Run) {
    && Plain(run.spec)
    && OutputsMatch(run)
    && NoLostWakeup(run)
    && DependencySafe(run)
    && FailureContained(run)
    && NoneWaiting(run)
  }

  lemma SubmittedInv(spec: Spec, input: Record)
    requires Plain(spec)
    ensures Inv(Submitted(spec, input))
  {
    if spec.steps != [] {
      assert spec.steps[0].Id() in Ids(spec);
    }
  }

  /** completeStep, row by row: `r` is what a reader of the tables sees afterwards. */
  ghost predicate CompletedFrom(run: Run, n: NodeId, output: Record, r: Run)
    requires n in run.executions
  {
    && r.spec == run.spec && r.input == run.input
    && r.executions.Keys == run.executions.Keys
    && r.outputs == InsertIfAbsent(run.outputs, n, output)
    && r.checkpoints == InsertIfAbsent(run.checkpoints, n, output)
    && r.executions[n] == run.executions[n].(status := Done)
    && (r.status == if Ids(run.spec) <= r.outputs.Keys && run.status != RunFailed then RunDone else run.status)
    && (forall m :: m in run.executions && m != n ==>
          r.executions[m] == if run.executions[m].status == Blocked && m !in r.outputs
                                && Deps(run.spec, m) <= r.outputs.Keys
                             then run.executions[m].(status := Queued)
                             else run.executions[m])
  }

  lemma CompleteStepRows(run: Run, n: NodeId, output: Record)
    requires n in run.executions
    ensures CompletedFrom(run, n, output, CompleteStep(run, n, output))
  {
  }

  lemma RowUnchanged(run: Run, n: NodeId)
    requires n in run.executions
    ensures WithRow(run, n, run.executions[n]) == run
  {
    assert run.executions[n := run.executions[n]] == run.executions;
  }

  lemma PromoteNone(run: Run, completed: set<NodeId>, scope: set<NodeId>)
    requires scope == {}
    ensures Promote(run, completed, scope) == run
  {
    assert Promote(run, completed, scope).executions == run.executions;
  }

  lemma NextIsNew(spec: Spec, k: nat)
    requires Plain(spec) && k < |spec.steps|
    ensures spec.steps[k].Id() !in IdsBelow(spec, k)
    ensures IdsBelow(spec, k + 1) == IdsBelow(spec, k) + {spec.steps[k].Id()}
  {
  }

  /** Promotion of one node more is one guarded update more. */
  lemma PromoteOneMore(run: Run, completed: set<NodeId>, scope: set<NodeId>, n: NodeId)
    requires n in run.executions
    ensures var promoted := Promote(run, completed, scope);
            Promote(run, completed, scope + {n}) ==
              if Ready(run.spec, n, completed) then WithRow(promoted, n, PromotedRow(promoted.executions[n]))
              else promoted
  {
    var promoted := Promote(run, completed, scope);
    assert Promote(run, completed, scope + {n}).executions ==
           if Ready(run.spec, n, completed) then promoted.executions[n := PromotedRow(promoted.executions[n])]
           else promoted.executions;
  }

  lemma CompleteStepIsFinish(base: Run, n: NodeId, output: Record)
    requires n in base.executions
    ensures var recorded := Recorded(base, n, output);
            && recorded.executions.Keys == base.executions.Keys
            && CompleteStep(base, n, output) ==
               Finish(Promote(recorded, recorded.outputs.Keys, recorded.executions.Keys))
  {
  }

  lemma CompletedFromOutputs(run: Run, n: NodeId, output: Record, r: Run)
    requires OutputsMatch(run) && n in run.executions && CompletedFrom(run, n, output, r)
    ensures OutputsMatch(r)
  {
    forall m | m in r.executions
      ensures m in r.outputs <==> r.executions[m].status == Done
    {
      assert m in run.outputs <==> run.executions[m].status == Done;
    }
  }

  lemma CompletedFromDependencies(run: Run, n: NodeId, output: Record, r: Run)
    requires DependencySafe(run) && n in run.executions && run.executions[n].attempts > 0
    requires CompletedFrom(run, n, output, r)
    ensures DependencySafe(r)
  {
    assert run.outputs.Keys <= r.outputs.Keys;
  }

  lemma CompletedFromWakeups(run: Run, n: NodeId, output: Record, r: Run)
    requires OutputsMatch(run) && NoLostWakeup(run) && n in run.executions && CompletedFrom(run, n, output, r)
    ensures NoLostWakeup(r)
  {
    forall m | m in r.executions && r.executions[m].status == Blocked
      ensures !(Deps(r.spec, m) <= r.outputs.Keys)
    {
      assert run.executions[m].status == Blocked;
      assert m !in run.outputs;
      assert !Ready(run.spec, m, r.outputs.Keys);
    }
    assert run.outputs.Keys <= r.outputs.Keys;
  }

  lemma CompletedFromFailure(run: Run, n: NodeId, output: Record, r: Run)
    requires FailureContained(run) && NoneWaiting(run) && n in run.executions && CompletedFrom(run, n, output, r)
    ensures FailureContained(r) && NoneWaiting(r)
  {
    forall m | m in r.executions
      ensures r.executions[m].status != Waiting
      ensures if run.status == RunFailed then !Unclaimed(r.executions[m].status)
              else r.executions[m].status != Failed
    {
      assert m == n || r.executions[m] in {run.executions[m], run.executions[m].(status := Queued)};
    }
  }

  lemma CompletedFromInv(run: Run, n: NodeId, output: Record, r: Run)
    requires Inv(run) && n in run.executions && run.executions[n].attempts > 0
    requires CompletedFrom(run, n, output, r)
    ensures Inv(r)
  {
    CompletedFromOutputs(run, n, output, r);
    CompletedFromDependencies(run, n, output, r);
    CompletedFromWakeups(run, n, output, r);
    CompletedFromFailure(run, n, output, r);
  }

  /** Completing a node changes nothing exactly when its output is already recorded: a
      repeated completion, with whatever output, is a no-op on the whole run. */
  lemma RepeatedCompletionIsNoOp(run: Run, n: NodeId, output: Record)
    requires Inv(run) && n in run.executions
    ensures CompleteStep(run, n, output) == run <==> n in run.outputs
  {
    var r := CompleteStep(run, n, output);
    CompleteStepRows(run, n, output);
    if n in run.outputs {
      NothingLeftToPromote(run, n, output, r);
      assert r.status == run.status;
    }
  }

  lemma NothingLeftToPromote(run: Run, n: NodeId, output: Record, r: Run)
    requires NoLostWakeup(run) && OutputsMatch(run) && n in run.outputs && CompletedFrom(run, n, output, r)
    ensures r.executions == run.executions
  {
    forall m | m in run.executions
      ensures r.executions[m] == run.executions[m]
    {
      assert run.executions[m].status == Blocked ==> !Ready(run.spec, m, run.outputs.Keys);
    }
  }

  /** failRun, row by row. */
  ghost predicate FailedFrom(run: Run, n: NodeId, r: Run)
    requires n in run.executions
  {
    && r == run.(status := RunFailed, executions := r.executions)
    && r.executions.Keys == run.executions.Keys
    && r.executions[n] == run.executions[n].(status := Failed)
    && (forall m :: m in run.executions && m != n ==>
          r.executions[m] == if run.executions[m].status in {Blocked, Queued, Waiting}
                             then run.executions[m].(status := Failed)
                             else run.executions[m])
  }

  lemma FailRunRows(run: Run, n: NodeId)
    requires n in run.executions
    ensures FailedFrom(run, n, FailRun(run, n))
  {
  }

  lemma FailedFromOutputs(run: Run, n: NodeId, r: Run)
    requires OutputsMatch(run) && NoneWaiting(run) && n in run.executions && n !in run.outputs && FailedFrom(run, n, r)
    ensures OutputsMatch(r) && NoneWaiting(r)
  {
  }

  lemma FailedFromContained(run: Run, n: NodeId, r: Run)
    requires n in run.executions && FailedFrom(run, n, r)
    ensures NoLostWakeup(r) && FailureContained(r)
  {
  }

  lemma FailedFromDependencies(run: Run, n: NodeId, r: Run)
    requires DependencySafe(run) && n in run.executions && run.executions[n].attempts > 0 && FailedFrom(run, n, r)
    ensures DependencySafe(r)
  {
  }

  lemma FailedFromInv(run: Run, n: NodeId, r: Run)
    requires Inv(run) && n in run.executions && n !in run.outputs && run.executions[n].attempts > 0
    requires FailedFrom(run, n, r)
    ensures Inv(r)
  {
    FailedFromOutputs(run, n, r);
    FailedFromContained(run, n, r);
    FailedFromDependencies(run, n, r);
  }

  lemma ClaimRowOutputs(run: Run, n: NodeId, lease: Lease)
    requires OutputsMatch(run) && NoneWaiting(run) && n in run.executions && Claimable(run.executions[n], lease.now)
    ensures OutputsMatch(ClaimRow(run, n, lease)) && NoneWaiting(ClaimRow(run, n, lease))
  {
  }

  lemma ClaimRowContained(run: Run, n: NodeId, lease: Lease)
    requires NoLostWakeup(run) && FailureContained(run)
    requires n in run.executions && Claimable(run.executions[n], lease.now)
    ensures NoLostWakeup(ClaimRow(run, n, lease)) && FailureContained(ClaimRow(run, n, lease))
  {
  }

  lemma ClaimRowDependencies(run: Run, n: NodeId, lease: Lease)
    requires DependencySafe(run) && n in run.executions && Claimable(run.executions[n], lease.now)
    ensures DependencySafe(ClaimRow(run, n, lease))
  {
  }

  lemma ClaimRowInv(run: Run, n: NodeId, lease: Lease)
    requires Inv(run) && n in run.executions && Claimable(run.executions[n], lease.now)
    ensures Inv(ClaimRow(run, n, lease))
  {
    ClaimRowOutputs(run, n, lease);
    ClaimRowContained(run, n, lease);
    ClaimRowDependencies(run, n, lease);
  }

  lemma ClaimCompleteInv(run: Run, n: NodeId, lease: Lease, output: Record)
    requires Inv(run) && n in run.executions && Claimable(run.executions[n], lease.now)
    ensures Inv(CompleteStep(ClaimRow(run, n, lease), n, output))
  {
    ClaimRowInv(run, n, lease);
    CompleteInv(ClaimRow(run, n, lease), n, output);
  }

  lemma CompleteInv(run: Run, n: NodeId, output: Record)
    requires Inv(run) && n in run.executions && run.executions[n].attempts > 0
    ensures Inv(CompleteStep(run, n, output))
  {
    CompleteStepRows(run, n, output);
    CompletedFromInv(run, n, output, CompleteStep(run, n, output));
  }

  lemma ClaimFailInv(run: Run, n: NodeId, lease: Lease)
    requires Inv(run) && n in run.executions && Claimable(run.executions[n], lease.now)
    ensures Inv(FailRun(ClaimRow(run, n, lease), n))
  {
    ClaimRowInv(run, n, lease);
    FailRunRows(ClaimRow(run, n, lease), n);
    FailedFromInv(ClaimRow(run, n, lease), n, FailRun(ClaimRow(run, n, lease), n));
  }

  lemma CompletionInv(run: Run, ev: Event)
    requires Inv(run) && Enabled(run, ev) && (ev.Complete? || ev.ClaimComplete?)
    ensures Inv(Apply(run, ev))
  {
    if ev.Complete? {
      CompleteInv(run, ev.node, ev.output);
    } else {
      ClaimCompleteInv(run, ev.node, ev.lease, ev.output);
    }
  }

  lemma ClaimInv(run: Run, ev: Event)
    requires Inv(run) && Enabled(run, ev) && (ev.ClaimOnly? || ev.ClaimFail?)
    ensures Inv(Apply(run, ev))
  {
    if ev.ClaimOnly? {
      ClaimRowInv(run, ev.node, ev.lease);
    } else {
      ClaimFailInv(run, ev.node, ev.lease);
    }
  }

  lemma ApplyInv(run: Run, ev: Event)
    requires Inv(run) && Enabled(run, ev)
    ensures Inv(Apply(run, ev))
  {
    if ev.Complete? || ev.ClaimComplete? {
      CompletionInv(run, ev);
    } else {
      ClaimInv(run, ev);
    }
  }
}
