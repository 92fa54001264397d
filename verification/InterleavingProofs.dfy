/** The refinement proof for module Interleaving, and what it gives for every
    interleaving of the transactions of one run. */
module InterleavingProofs {
  import opened Wrappers
  import opened WorkflowSpecs
  import opened Runs
  import opened RunInvariants
  import opened RunHistories
  import opened Interleaving

  // ---- one statement of an open transaction -------------------------------------------

  lemma AdvanceShape(c: Run, t: Txn, st: Statement)
    requires Shape(c, t) && Reached(c, t, st)
    ensures Shape(c, Advance(c, t, st))
    ensures Advance(c, t, st).rows.Keys <= t.rows.Keys + WrittenRow(c, t, st)
  {
  }

  lemma AdvanceLockRun(c: Run, t: Txn, output: Record)
    requires TxnInv(c, t) && Reached(c, t, LockRun(output))
    ensures View(c, Advance(c, t, LockRun(output))) == Expected(c, Advance(c, t, LockRun(output)))
  {
  }

  lemma ViewOfCheckpoint(c: Run, t: Txn)
    ensures var view := View(c, t);
            var t' := t.(checkpoints := if t.node in view.checkpoints then t.checkpoints
                                        else t.checkpoints[t.node := t.output]);
            View(c, t') == view.(checkpoints := InsertIfAbsent(view.checkpoints, t.node, t.output))
  {
    OverlayPut(c.checkpoints, t.checkpoints, t.node, t.output);
  }

  lemma ViewOfOutput(c: Run, t: Txn)
    ensures var view := View(c, t);
            var t' := t.(outputs := if t.node in view.outputs then t.outputs else t.outputs[t.node := t.output]);
            View(c, t') == view.(outputs := InsertIfAbsent(view.outputs, t.node, t.output))
  {
    OverlayPut(c.outputs, t.outputs, t.node, t.output);
  }

  lemma ViewIgnoresPhase(c: Run, t: Txn, phase: Phase)
    ensures View(c, t.(phase := phase)) == View(c, t)
  {
  }

  lemma AdvanceWriteCheckpoint(c: Run, t: Txn)
    requires TxnInv(c, t) && Reached(c, t, WriteCheckpoint)
    ensures View(c, Advance(c, t, WriteCheckpoint)) == Expected(c, Advance(c, t, WriteCheckpoint))
  {
    ViewOfCheckpoint(c, t);
  }

  lemma AdvanceRecordOutput(c: Run, t: Txn)
    requires TxnInv(c, t) && Reached(c, t, RecordOutput)
    ensures View(c, Advance(c, t, RecordOutput)) == Expected(c, Advance(c, t, RecordOutput))
  {
    ViewOfOutput(c, t);
    RecordsTheOutput(Base(c, t), t.node, t.output);
  }

  lemma RecordsTheOutput(base: Run, n: NodeId, output: Record)
    requires n in base.executions
    ensures var marked := PartialEffect(base, n, output, RowMarkedDone);
            PartialEffect(base, n, output, OutputRecorded) ==
            marked.(outputs := InsertIfAbsent(marked.outputs, n, output))
  {
  }

  lemma AdvanceMarkRowDone(c: Run, t: Txn)
    requires TxnInv(c, t) && Reached(c, t, MarkRowDone)
    ensures View(c, Advance(c, t, MarkRowDone)) == Expected(c, Advance(c, t, MarkRowDone))
  {
    ViewOfRow(c, t, t.node, View(c, t).executions[t.node].(status := Done));
    MarksTheRow(Base(c, t), t.node, t.output);
  }

  lemma MarksTheRow(base: Run, n: NodeId, output: Record)
    requires n in base.executions
    ensures var checkpointed := PartialEffect(base, n, output, CheckpointWritten);
            PartialEffect(base, n, output, RowMarkedDone) ==
            WithRow(checkpointed, n, checkpointed.executions[n].(status := Done))
  {
  }

  lemma AdvanceReadCompleted(c: Run, t: Txn)
    requires TxnInv(c, t) && Reached(c, t, ReadCompleted)
    ensures View(c, Advance(c, t, ReadCompleted)) == Expected(c, Advance(c, t, ReadCompleted))
  {
    PromotesNothingYet(Base(c, t), t.node, t.output, View(c, t).outputs.Keys);
    ViewIgnoresPhase(c, t, Promoting(0, View(c, t).outputs.Keys));
  }

  lemma PromotesNothingYet(base: Run, n: NodeId, output: Record, completed: set<NodeId>)
    requires n in base.executions
    ensures PartialEffect(base, n, output, Promoting(0, completed)) == PartialEffect(base, n, output, OutputRecorded)
  {
    var recorded := Recorded(base, n, output);
    PromoteNone(recorded, recorded.outputs.Keys, IdsBelow(base.spec, 0));
  }

  lemma OverlayPut<T>(committed: map<NodeId, T>, written: map<NodeId, T>, n: NodeId, x: T)
    ensures committed + written[n := x] == (committed + written)[n := x]
  {
  }

  lemma ViewOfRow(c: Run, t: Txn, n: NodeId, row: Execution)
    ensures View(c, t.(rows := t.rows[n := row])) == WithRow(View(c, t), n, row)
  {
    OverlayPut(c.executions, t.rows, n, row);
  }

  /** One iteration of promoteReadyNodes on a view that is the promotion so far. */
  lemma PromoteStep(recorded: Run, view: Run, view': Run, k: nat)
    requires Plain(recorded.spec) && k < |recorded.spec.steps| && NextNode(recorded.spec, k) in recorded.executions
    requires view == Promote(recorded, recorded.outputs.Keys, IdsBelow(recorded.spec, k))
    requires PromotesNext(view, view', recorded.outputs.Keys, NextNode(recorded.spec, k))
    ensures view' == Promote(recorded, recorded.outputs.Keys, IdsBelow(recorded.spec, k + 1))
  {
    var n := NextNode(recorded.spec, k);
    NextIsNew(recorded.spec, k);
    PromoteOneMore(recorded, recorded.outputs.Keys, IdsBelow(recorded.spec, k), n);
    RowUnchanged(view, n);
  }

  ghost predicate PromotesNext(view: Run, view': Run, completed: set<NodeId>, n: NodeId)
    requires n in view.executions
  {
    view' == if Ready(view.spec, n, completed) && view.executions[n].status == Blocked
             then WithRow(view, n, view.executions[n].(status := Queued))
             else view
  }

  lemma ViewOfPromoteNext(c: Run, t: Txn)
    requires Reached(c, t, PromoteNext) && t.node in c.executions
    ensures PromotesNext(View(c, t), View(c, Advance(c, t, PromoteNext)), t.phase.completed,
                         NextNode(c.spec, t.phase.next))
  {
    var n, view := NextNode(c.spec, t.phase.next), View(c, t);
    if Ready(c.spec, n, t.phase.completed) && view.executions[n].status == Blocked {
      ViewOfRow(c, t, n, view.executions[n].(status := Queued));
    }
    ViewIgnoresPhase(c, t, Promoting(t.phase.next + 1, t.phase.completed));
  }

  lemma AdvancePromoteNext(c: Run, t: Txn, t': Txn, recorded: Run)
    requires Plain(c.spec) && Reached(c, t, PromoteNext) && t.node in c.executions
    requires recorded.spec == c.spec && c.executions.Keys <= recorded.executions.Keys
    requires View(c, t) == Promote(recorded, recorded.outputs.Keys, IdsBelow(c.spec, t.phase.next))
    requires t.phase.completed == recorded.outputs.Keys
    requires t' == Advance(c, t, PromoteNext)
    ensures View(c, t') == Promote(recorded, recorded.outputs.Keys, IdsBelow(c.spec, t.phase.next + 1))
  {
    ViewOfPromoteNext(c, t);
    PromoteStep(recorded, View(c, t), View(c, t'), t.phase.next);
  }

  lemma PromoteAll(run: Run)
    requires run.executions.Keys == Ids(run.spec)
    ensures Promote(run, run.outputs.Keys, IdsBelow(run.spec, |run.spec.steps|)) ==
            Promote(run, run.outputs.Keys, run.executions.Keys)
  {
    assert IdsBelow(run.spec, |run.spec.steps|) == Ids(run.spec);
  }

  lemma AdvanceCheckRunDone(c: Run, t: Txn, t': Txn, recorded: Run)
    requires Reached(c, t, CheckRunDone) && t.node in c.executions
    requires recorded.spec == c.spec && recorded.executions.Keys == Ids(c.spec)
    requires View(c, t) == Promote(recorded, recorded.outputs.Keys, IdsBelow(c.spec, |c.spec.steps|))
    requires t.phase.completed == View(c, t).outputs.Keys
    requires t' == Advance(c, t, CheckRunDone)
    ensures View(c, t') == Finish(Promote(recorded, recorded.outputs.Keys, recorded.executions.Keys))
  {
    PromoteAll(recorded);
    assert View(c, t') == Finish(View(c, t));
  }

  lemma AdvanceMarkRunFailed(c: Run, t: Txn)
    requires TxnInv(c, t) && Reached(c, t, MarkRunFailed)
    ensures View(c, Advance(c, t, MarkRunFailed)) == Expected(c, Advance(c, t, MarkRunFailed))
  {
  }

  lemma AdvanceMarkRowFailed(c: Run, t: Txn)
    requires TxnInv(c, t) && Reached(c, t, MarkRowFailed)
    ensures View(c, Advance(c, t, MarkRowFailed)) == Expected(c, Advance(c, t, MarkRowFailed))
  {
    ViewOfRow(c, t, t.node, View(c, t).executions[t.node].(status := Failed));
    SweepNone(SetStatus(Base(c, t).(status := RunFailed), t.node, Failed));
  }

  lemma SweepNone(run: Run)
    ensures FailRemaining(run, {}) == run
  {
    assert FailRemaining(run, {}).executions == run.executions;
  }

  lemma FailOneMore(run: Run, visited: set<NodeId>, n: NodeId)
    requires n in run.executions
    ensures var swept := FailRemaining(run, visited);
            var row := swept.executions[n];
            FailRemaining(run, visited + {n}) ==
              if Unclaimed(row.status) then WithRow(swept, n, row.(status := Failed)) else swept
  {
    var swept := FailRemaining(run, visited);
    var row := swept.executions[n];
    assert FailRemaining(run, visited + {n}).executions ==
           if Unclaimed(row.status) then swept.executions[n := row.(status := Failed)] else swept.executions;
  }

  lemma AdvanceSweepView(c: Run, t: Txn, t': Txn, failed: Run, n: NodeId)
    requires Reached(c, t, SweepRow(n)) && t.node in c.executions && n in failed.executions
    requires View(c, t) == FailRemaining(failed, t.phase.visited)
    requires t' == Advance(c, t, SweepRow(n))
    ensures View(c, t') == FailRemaining(failed, t.phase.visited + {n})
  {
    FailOneMore(failed, t.phase.visited, n);
    ViewOfRow(c, t, n, View(c, t).executions[n].(status := Failed));
  }

  /** The rows a sweep works on. */
  function FailedBase(c: Run, t: Txn): Run
    requires t.node in c.executions
  {
    SetStatus(Base(c, t).(status := RunFailed), t.node, Failed)
  }

  lemma SweepingView(c: Run, t: Txn)
    requires t.node in c.executions && t.phase.Sweeping?
    ensures Expected(c, t) == FailRemaining(FailedBase(c, t), t.phase.visited)
    ensures FailedBase(c, t).executions.Keys == c.executions.Keys
  {
  }

  lemma AdvanceSweepRow(c: Run, t: Txn, n: NodeId)
    requires TxnInv(c, t) && Reached(c, t, SweepRow(n))
    ensures View(c, Advance(c, t, SweepRow(n))) == Expected(c, Advance(c, t, SweepRow(n)))
  {
    var t' := Advance(c, t, SweepRow(n));
    SweepingView(c, t);
    SweepingView(c, t');
    AdvanceSweepView(c, t, t', FailedBase(c, t), n);
  }

  /** Promotion so far, in terms of the committed rows. */
  function PromotedSoFar(c: Run, t: Txn, k: nat): Run
    requires t.node in c.executions && k <= |c.spec.steps|
  {
    var recorded := Recorded(Base(c, t), t.node, t.output);
    Promote(recorded, recorded.outputs.Keys, IdsBelow(c.spec, k))
  }

  lemma PromotingView(c: Run, t: Txn)
    requires t.node in c.executions && t.phase.Promoting? && t.phase.next <= |c.spec.steps|
    ensures Expected(c, t) == PromotedSoFar(c, t, t.phase.next)
  {
  }

  lemma CompletedView(c: Run, t: Txn)
    requires t.node in c.executions && t.phase.Completed?
    ensures Expected(c, t) == CompleteStep(Base(c, t), t.node, t.output)
  {
  }

  lemma AdvancePromoteInv(c: Run, t: Txn, t': Txn)
    requires Plain(c.spec) && t.node in c.executions && Reached(c, t, PromoteNext)
    requires t.phase.completed == View(c, t).outputs.Keys
    requires View(c, t) == PromotedSoFar(c, t, t.phase.next)
    requires t' == Advance(c, t, PromoteNext)
    ensures t'.node in c.executions && t'.phase.Promoting? && t'.phase.next <= |c.spec.steps|
    ensures View(c, t') == PromotedSoFar(c, t', t'.phase.next)
  {
    var recorded := RecordedBase(c, t);
    PromotedFrom(c, t, t.phase.next, recorded);
    AdvancePromoteNext(c, t, t', recorded);
    PromoteNextFields(c, t, t');
    ViewIsPromoted(c, t', recorded);
  }

  lemma ViewIsPromoted(c: Run, t: Txn, recorded: Run)
    requires t.node in c.executions && t.phase.Promoting? && t.phase.next <= |c.spec.steps|
    requires recorded == Recorded(Base(c, t), t.node, t.output)
    requires View(c, t) == Promote(recorded, recorded.outputs.Keys, IdsBelow(c.spec, t.phase.next))
    ensures View(c, t) == PromotedSoFar(c, t, t.phase.next)
  {
    PromotedFrom(c, t, t.phase.next, recorded);
  }

  lemma PromoteNextFields(c: Run, t: Txn, t': Txn)
    requires t.node in c.executions && Reached(c, t, PromoteNext) && t' == Advance(c, t, PromoteNext)
    ensures t'.node == t.node && t'.lease == t.lease && t'.output == t.output
    ensures t'.phase.Promoting? && t'.phase.next == t.phase.next + 1
    ensures Recorded(Base(c, t'), t'.node, t'.output) == Recorded(Base(c, t), t.node, t.output)
  {
  }

  /** The completion's writes before it promotes anything. */
  lemma RecordedBase(c: Run, t: Txn) returns (recorded: Run)
    requires t.node in c.executions
    ensures recorded == Recorded(Base(c, t), t.node, t.output)
    ensures recorded.spec == c.spec && recorded.executions.Keys == c.executions.Keys
  {
    recorded := Recorded(Base(c, t), t.node, t.output);
  }

  lemma PromotedFrom(c: Run, t: Txn, k: nat, recorded: Run)
    requires t.node in c.executions && k <= |c.spec.steps| && recorded == Recorded(Base(c, t), t.node, t.output)
    ensures PromotedSoFar(c, t, k) == Promote(recorded, recorded.outputs.Keys, IdsBelow(c.spec, k))
  {
  }

  lemma AdvanceCompletedInv(c: Run, t: Txn, t': Txn)
    requires c.executions.Keys == Ids(c.spec) && Shape(c, t) && Reached(c, t, CheckRunDone)
    requires View(c, t) == PromotedSoFar(c, t, |c.spec.steps|)
    requires t' == Advance(c, t, CheckRunDone)
    ensures View(c, t') == CompleteStep(Base(c, t), t.node, t.output)
  {
    var base := Base(c, t);
    BaseKeys(c, t);
    CompleteStepIsFinish(base, t.node, t.output);
    AdvanceCheckRunDone(c, t, t', Recorded(base, t.node, t.output));
  }

  lemma BaseKeys(c: Run, t: Txn)
    requires t.node in c.executions
    ensures Base(c, t).executions.Keys == c.executions.Keys && Base(c, t).spec == c.spec
  {
  }

  lemma AdvanceInv(c: Run, t: Txn, st: Statement)
    requires Plain(c.spec) && c.executions.Keys == Ids(c.spec) && TxnInv(c, t) && Reached(c, t, st)
    ensures TxnInv(c, Advance(c, t, st))
    ensures Advance(c, t, st).rows.Keys <= t.rows.Keys + WrittenRow(c, t, st)
  {
    AdvanceShape(c, t, st);
    match st
    case MarkRowDone => AdvanceMarkRowDone(c, t);
    case ReadCompleted => AdvanceReadCompleted(c, t);
    case PromoteNext => AdvancePromoteView(c, t);
    case CheckRunDone => AdvanceCompletedView(c, t);
    case MarkRunFailed => AdvanceMarkRunFailed(c, t);
    case MarkRowFailed => AdvanceMarkRowFailed(c, t);
    case SweepRow(n) => AdvanceSweepRow(c, t, n);
    case LockRun(output) => AdvanceLockRun(c, t, output);
    case WriteCheckpoint => AdvanceWriteCheckpoint(c, t);
    case RecordOutput => AdvanceRecordOutput(c, t);
  }

  lemma AdvancePromoteView(c: Run, t: Txn)
    requires Plain(c.spec) && TxnInv(c, t) && Reached(c, t, PromoteNext)
    ensures View(c, Advance(c, t, PromoteNext)) == Expected(c, Advance(c, t, PromoteNext))
  {
    var t' := Advance(c, t, PromoteNext);
    PromotingView(c, t);
    AdvancePromoteInv(c, t, t');
    PromotingExpected(c, t');
  }

  lemma PromotingExpected(c: Run, t: Txn)
    requires t.node in c.executions && t.phase.Promoting? && t.phase.next <= |c.spec.steps|
    requires View(c, t) == PromotedSoFar(c, t, t.phase.next)
    ensures View(c, t) == Expected(c, t)
  {
    PromotingView(c, t);
  }

  lemma AdvanceCompletedView(c: Run, t: Txn)
    requires c.executions.Keys == Ids(c.spec) && TxnInv(c, t) && Reached(c, t, CheckRunDone)
    ensures View(c, Advance(c, t, CheckRunDone)) == Expected(c, Advance(c, t, CheckRunDone))
  {
    PromotingView(c, t);
    CompletedView(c, Advance(c, t, CheckRunDone));
    AdvanceCompletedInv(c, t, Advance(c, t, CheckRunDone));
  }

  /** The row a statement may lock. */
  ghost function WrittenRow(c: Run, t: Txn, st: Statement): set<NodeId>
    requires t.node in c.executions && Reached(c, t, st)
  {
    var rows := View(c, t).executions;
    match st
    case MarkRowDone => {t.node}
    case MarkRowFailed => {t.node}
    case PromoteNext =>
      var n := NextNode(c.spec, t.phase.next);
      if Ready(c.spec, n, t.phase.completed) && rows[n].status == Blocked then {n} else {}
    case SweepRow(n) => if Unclaimed(rows[n].status) then {n} else {}
    case _ => {}
  }

  // ---- a commit by another transaction -------------------------------------------------

  lemma PromoteSkipsClaimed(run: Run, completed: set<NodeId>, scope: set<NodeId>, m: NodeId, row: Execution)
    requires m in run.executions && run.executions[m].status != Blocked && row.status != Blocked
    ensures Promote(WithRow(run, m, row), completed, scope) == WithRow(Promote(run, completed, scope), m, row)
  {
  }

  lemma SweepSkipsClaimed(run: Run, visited: set<NodeId>, m: NodeId, row: Execution)
    requires m in run.executions && !Unclaimed(row.status)
    ensures FailRemaining(WithRow(run, m, row), visited) == WithRow(FailRemaining(run, visited), m, row)
  {
  }

  lemma RecordedWithRow(run: Run, n: NodeId, output: Record, m: NodeId, row: Execution)
    requires n in run.executions && m != n
    ensures Recorded(WithRow(run, m, row), n, output) == WithRow(Recorded(run, n, output), m, row)
  {
  }

  lemma BaseWithRow(c: Run, t: Txn, m: NodeId, row: Execution)
    requires t.node in c.executions && (t.lease.Some? ==> m != t.node)
    ensures Base(WithRow(c, m, row), t) == WithRow(Base(c, t), m, row)
  {
  }

  lemma CompleteStepWithRow(base: Run, n: NodeId, output: Record, m: NodeId, row: Execution)
    requires n in base.executions && m in base.executions && m != n
    requires base.executions[m].status != Blocked && row.status != Blocked
    ensures CompleteStep(WithRow(base, m, row), n, output) == WithRow(CompleteStep(base, n, output), m, row)
  {
    var recorded := Recorded(base, n, output);
    RecordedWithRow(base, n, output, m, row);
    assert WithRow(base, m, row).executions.Keys == base.executions.Keys;
    PromoteSkipsClaimed(recorded, recorded.outputs.Keys, base.executions.Keys, m, row);
  }

  lemma SweepWithRow(base: Run, n: NodeId, visited: set<NodeId>, m: NodeId, row: Execution)
    requires n in base.executions && m in base.executions && m != n && !Unclaimed(row.status)
    ensures FailRemaining(SetStatus(WithRow(base, m, row).(status := RunFailed), n, Failed), visited) ==
            WithRow(FailRemaining(SetStatus(base.(status := RunFailed), n, Failed), visited), m, row)
  {
    var failed := SetStatus(base.(status := RunFailed), n, Failed);
    SweepSkipsClaimed(failed, visited, m, row);
    assert SetStatus(WithRow(base, m, row).(status := RunFailed), n, Failed) == WithRow(failed, m, row);
  }

  lemma PromoteKeepsDone(run: Run, completed: set<NodeId>, scope: set<NodeId>, n: NodeId)
    requires n in run.executions && run.executions[n].status == Done
    ensures Promote(run, completed, scope).executions[n].status == Done
  {
  }

  ghost predicate NodeMarkedDone(t: Txn) {
    t.phase.RowMarkedDone? || t.phase.OutputRecorded? || t.phase.Promoting? || t.phase.Completed?
  }

  lemma ExpectedMarksDone(c: Run, t: Txn)
    requires Shape(c, t) && NodeMarkedDone(t)
    ensures t.node in Expected(c, t).executions && Expected(c, t).executions[t.node].status == Done
  {
    EffectMarksDone(Base(c, t), t.node, t.output, t.phase);
  }

  lemma EffectMarksDone(base: Run, n: NodeId, output: Record, phase: Phase)
    requires n in base.executions && (phase.Promoting? ==> phase.next <= |base.spec.steps|)
    requires phase.RowMarkedDone? || phase.OutputRecorded? || phase.Promoting? || phase.Completed?
    ensures var effect := PartialEffect(base, n, output, phase);
            n in effect.executions && effect.executions[n].status == Done
  {
    var recorded := Recorded(base, n, output);
    if phase.Promoting? {
      PromoteKeepsDone(recorded, recorded.outputs.Keys, IdsBelow(base.spec, phase.next), n);
    } else if phase.Completed? {
      PromoteKeepsDone(recorded, recorded.outputs.Keys, base.executions.Keys, n);
    }
  }

  /** A claimable row the transaction has not written is not its own node's, once the
      node is marked done. */
  lemma OwnRowIsWritten(c: Run, t: Txn, m: NodeId)
    requires TxnInv(c, t) && m in c.executions && m !in t.rows && c.executions[m].status in {Queued, Running}
    requires t.lease.Some? || NodeMarkedDone(t)
    ensures m != t.node
  {
    if NodeMarkedDone(t) {
      ExpectedMarksDone(c, t);
      assert View(c, t).executions[m] == c.executions[m];
    }
  }

  /** Neither completeStep nor failRun looks at a running row other than its own. */
  lemma PartialEffectWithRow(base: Run, n: NodeId, output: Record, phase: Phase, m: NodeId, row: Execution)
    requires n in base.executions && m in base.executions && m != n
    requires phase.Promoting? ==> phase.next <= |base.spec.steps|
    requires base.executions[m].status in {Queued, Running} && row.status == Running
    ensures PartialEffect(WithRow(base, m, row), n, output, phase) ==
            WithRow(PartialEffect(base, n, output, phase), m, row)
  {
    match phase
    case OutputRecorded => RecordedWithRow(base, n, output, m, row);
    case Promoting(k, _) =>
      var recorded := Recorded(base, n, output);
      RecordedWithRow(base, n, output, m, row);
      PromoteSkipsClaimed(recorded, recorded.outputs.Keys, IdsBelow(base.spec, k), m, row);
    case Completed => CompleteStepWithRow(base, n, output, m, row);
    case Sweeping(visited) => SweepWithRow(base, n, visited, m, row);
    case _ =>
  }

  /** A row an open transaction has not written may be claimed and committed by another:
      the transaction's work so far is still exactly its partial effect on the rows now
      committed. */
  lemma ExpectedWithRow(c: Run, t: Txn, m: NodeId, row: Execution)
    requires Shape(c, t) && m in c.executions
    requires t.lease.Some? || NodeMarkedDone(t) ==> m != t.node
    requires c.executions[m].status in {Queued, Running} && row.status == Running
    ensures Expected(WithRow(c, m, row), t) == WithRow(Expected(c, t), m, row)
  {
    BaseWithRow(c, t, m, row);
    if m != t.node {
      PartialEffectWithRow(Base(c, t), t.node, t.output, t.phase, m, row);
    }
  }

  lemma ShapeWithRow(c: Run, t: Txn, m: NodeId, row: Execution)
    requires Shape(c, t) && m in c.executions && m !in t.rows && row.attempts > 0
    ensures Shape(WithRow(c, m, row), t)
  {
  }

  lemma ViewWithRow(c: Run, t: Txn, m: NodeId, row: Execution)
    requires m !in t.rows
    ensures View(WithRow(c, m, row), t) == WithRow(View(c, t), m, row)
  {
    assert c.executions[m := row] + t.rows == (c.executions + t.rows)[m := row];
  }

  lemma OtherClaimCommits(c: Run, t: Txn, m: NodeId, row: Execution)
    requires TxnInv(c, t) && m in c.executions && m !in t.rows
    requires c.executions[m].status in {Queued, Running} && row.status == Running && row.attempts > 0
    ensures TxnInv(WithRow(c, m, row), t)
  {
    if t.lease.Some? || NodeMarkedDone(t) {
      OwnRowIsWritten(c, t, m);
    }
    ExpectedWithRow(c, t, m, row);
    ShapeWithRow(c, t, m, row);
    ViewWithRow(c, t, m, row);
  }

  /** A transaction that has only claimed is untouched by any commit that leaves its
      row alone. */
  lemma OtherCommitsAfterClaim(c: Run, c': Run, t: Txn)
    requires TxnInv(c, t) && t.phase.Claimed?
    requires c'.executions.Keys == c.executions.Keys && c'.executions[t.node] == c.executions[t.node]
    ensures TxnInv(c', t)
  {
    assert View(c, t).executions[t.node] == Expected(c, t).executions[t.node];
    assert View(c', t).executions == Expected(c', t).executions;
  }

  // ---- refinement ------------------------------------------------------------------------

  /** The whole transaction a commit amounts to. */
  function CommittedEvent(t: Txn): Event
    requires t.lease.None? ==> t.phase.Completed?
  {
    if t.phase.Claimed? then ClaimOnly(t.node, t.lease.value)
    else if t.phase.Completed? then
      if t.lease.Some? then ClaimComplete(t.node, t.lease.value, t.output) else Complete(t.node, t.output)
    else ClaimFail(t.node, t.lease.value)
  }

  /** Committing an interleaved transaction is applying the whole transaction to the rows
      committed at that moment. */
  lemma CommitIsEvent(c: Run, t: Txn)
    requires TxnInv(c, t)
    requires t.phase.Claimed? || t.phase.Completed? || (t.phase.Sweeping? && t.phase.visited == c.executions.Keys)
    ensures t.lease.None? ==> t.phase.Completed?
    ensures Enabled(c, CommittedEvent(t)) && View(c, t) == Apply(c, CommittedEvent(t))
  {
    if t.phase.Claimed? {
    } else if t.phase.Completed? {
      CompletedView(c, t);
    } else {
      SweptView(c, t);
    }
  }

  lemma SweptView(c: Run, t: Txn)
    requires Shape(c, t) && t.phase == Sweeping(c.executions.Keys)
    ensures Expected(c, t) == FailRun(Base(c, t), t.node)
  {
    assert Base(c, t).executions.Keys == c.executions.Keys;
  }

  // ---- the whole system ------------------------------------------------------------------

  lemma ReplaceTxn(c: Run, open: map<nat, Txn>, tid: nat, t: Txn)
    requires AllTxnInv(c, open) && TxnInv(c, t)
    ensures AllTxnInv(c, open[tid := t])
  {
    var replaced := open[tid := t];
    forall u | u in replaced
      ensures TxnInv(c, replaced[u])
    {
      assert u != tid ==> TxnInv(c, open[u]);
    }
  }

  lemma ReplaceLocks(open: map<nat, Txn>, tid: nat, t: Txn)
    requires RowsExclusive(open) && RunExclusive(open)
    requires forall u :: u in open && u != tid ==> open[u].rows.Keys !! t.rows.Keys
    requires forall u :: u in open && u != tid ==> !HoldsRun(open[u]) || !HoldsRun(t)
    ensures RowsExclusive(open[tid := t]) && RunExclusive(open[tid := t])
  {
  }

  lemma ReplaceInv(s: System, tid: nat, t: Txn)
    requires SystemInv(s) && TxnInv(s.committed, t)
    requires forall u :: u in s.open && u != tid ==> s.open[u].rows.Keys !! t.rows.Keys
    requires forall u :: u in s.open && u != tid ==> !HoldsRun(s.open[u]) || !HoldsRun(t)
    ensures SystemInv(s.(open := s.open[tid := t]))
  {
    ReplaceTxn(s.committed, s.open, tid, t);
    ReplaceLocks(s.open, tid, t);
  }

  lemma ClaimedTxn(c: Run, t: Txn, n: NodeId, lease: Lease)
    requires n in c.executions && Claimable(c.executions[n], lease.now)
    requires t == Txn(n, Some(lease), map[], Claimed, map[n := ClaimedRow(c.executions[n], lease)], map[], map[], None)
    ensures TxnInv(c, t)
  {
    assert View(c, t).executions == Base(c, t).executions;
  }

  lemma LaterTxn(c: Run, t: Txn, n: NodeId, output: Record)
    requires n in c.executions && c.executions[n].attempts > 0
    requires t == Txn(n, None, output, RunLocked, map[], map[], map[], None)
    ensures TxnInv(c, t)
  {
    assert View(c, t).executions == Base(c, t).executions;
  }

  lemma BeginInv(s: System, a: Action)
    requires SystemInv(s) && CanStep(s, a) && (a.BeginClaim? || a.BeginLater?)
    ensures SystemInv(DoStep(s, a))
  {
    var t := DoStep(s, a).open[a.tid];
    if a.BeginClaim? {
      ClaimedTxn(s.committed, t, a.node, a.lease);
    } else {
      LaterTxn(s.committed, t, a.node, a.output);
    }
    ReplaceInv(s, a.tid, t);
  }

  lemma WrittenRowIsFree(s: System, tid: nat, st: Statement, u: nat)
    requires CanStep(s, Issue(tid, st)) && u in s.open && u != tid
    ensures s.open[u].rows.Keys !! WrittenRow(s.committed, s.open[tid], st)
  {
  }

  lemma LocksAreFree(s: System, tid: nat, st: Statement, u: nat)
    requires tid in s.open && s.open[tid].node in s.committed.executions && Reached(s.committed, s.open[tid], st)
    requires RunExclusive(s.open) && Unblocked(s, tid, st) && u in s.open && u != tid
    ensures !HoldsRun(s.open[u]) || !HoldsRun(Advance(s.committed, s.open[tid], st))
  {
    if !st.LockRun? && !st.MarkRunFailed? {
      assert HoldsRun(s.open[tid]);
    }
  }

  lemma IssueInv(s: System, tid: nat, st: Statement)
    requires SystemInv(s) && CanStep(s, Issue(tid, st))
    ensures SystemInv(DoStep(s, Issue(tid, st)))
  {
    var c, t := s.committed, s.open[tid];
    AdvanceInv(c, t, st);
    forall u | u in s.open && u != tid
      ensures s.open[u].rows.Keys !! Advance(c, t, st).rows.Keys
      ensures !HoldsRun(s.open[u]) || !HoldsRun(Advance(c, t, st))
    {
      assert s.open[u].rows.Keys !! t.rows.Keys;
      WrittenRowIsFree(s, tid, st, u);
      LocksAreFree(s, tid, st, u);
    }
    ReplaceInv(s, tid, Advance(c, t, st));
  }

  lemma AbortInv(s: System, tid: nat)
    requires SystemInv(s) && CanStep(s, Abort(tid))
    ensures SystemInv(DoStep(s, Abort(tid)))
  {
  }

  /** What a commit leaves alone in a row it has not written. */
  lemma CommitKeepsRow(c: Run, t: Txn, n: NodeId)
    requires TxnInv(c, t) && n in c.executions && n !in t.rows
    ensures View(c, t).executions.Keys == c.executions.Keys
    ensures View(c, t).executions[n] == c.executions[n]
  {
  }

  /** The commit of `t`, as seen by another open transaction. */
  lemma CommitKeepsOther(c: Run, t: Txn, other: Txn)
    requires TxnInv(c, t) && TxnInv(c, other) && t.rows.Keys !! other.rows.Keys
    requires !HoldsRun(t) || !HoldsRun(other)
    ensures TxnInv(View(c, t), other)
  {
    if t.phase.Claimed? {
      var row := ClaimedRow(c.executions[t.node], t.lease.value);
      ClaimedView(c, t);
      OtherClaimCommits(c, other, t.node, row);
    } else {
      CommitKeepsRow(c, t, other.node);
      OtherCommitsAfterClaim(c, View(c, t), other);
    }
  }

  lemma ClaimedView(c: Run, t: Txn)
    requires TxnInv(c, t) && t.phase.Claimed?
    ensures t.lease.Some? && View(c, t) == WithRow(c, t.node, ClaimedRow(c.executions[t.node], t.lease.value))
  {
  }

  lemma CommitInv(s: System, tid: nat)
    requires SystemInv(s) && CanStep(s, Commit(tid))
    ensures SystemInv(DoStep(s, Commit(tid)))
  {
    var s', c, t := DoStep(s, Commit(tid)), s.committed, s.open[tid];
    assert TxnInv(c, t);
    CommitIsEvent(c, t);
    ApplyInv(c, CommittedEvent(t));
    forall u | u in s'.open
      ensures TxnInv(s'.committed, s'.open[u])
    {
      CommitKeepsOther(c, t, s.open[u]);
    }
  }

  lemma StepInv(s: System, a: Action)
    requires SystemInv(s) && CanStep(s, a)
    ensures SystemInv(DoStep(s, a))
  {
    match a
    case BeginClaim(_, _, _) => BeginInv(s, a);
    case BeginLater(_, _, _) => BeginInv(s, a);
    case Issue(tid, st) => IssueInv(s, tid, st);
    case Commit(tid) => CommitInv(s, tid);
    case Abort(tid) => AbortInv(s, tid);
  }

  /** Every interleaving of any number of transactions, each aborting or committing at
      any point, after the run was submitted. */
  ghost predicate IsInterleaving(systems: seq<System>, actions: seq<Action>) {
    && |systems| == |actions| + 1
    && Plain(systems[0].committed.spec)
    && systems[0] == System(Submitted(systems[0].committed.spec, systems[0].committed.input), map[])
    && forall i {:trigger actions[i]} :: 0 <= i < |actions| ==>
         CanStep(systems[i], actions[i]) && systems[i + 1] == DoStep(systems[i], actions[i])
  }

  lemma {:induction false} InterleavingInv(systems: seq<System>, actions: seq<Action>, i: nat)
    requires IsInterleaving(systems, actions) && i < |systems|
    ensures SystemInv(systems[i])
  {
    if i == 0 {
      SubmittedInv(systems[0].committed.spec, systems[0].committed.input);
    } else {
      InterleavingInv(systems, actions, i - 1);
      StepInv(systems[i - 1], actions[i - 1]);
    }
  }

  /** One step of an interleaving leaves the committed rows alone, or applies one whole
      transaction to them. */
  lemma StepRefines(s: System, a: Action)
    requires SystemInv(s) && CanStep(s, a)
    ensures a.Commit? ==>
              && (s.open[a.tid].lease.None? ==> s.open[a.tid].phase.Completed?)
              && Enabled(s.committed, CommittedEvent(s.open[a.tid]))
              && DoStep(s, a).committed == Apply(s.committed, CommittedEvent(s.open[a.tid]))
    ensures !a.Commit? ==> DoStep(s, a).committed == s.committed
  {
    if a.Commit? {
      assert TxnInv(s.committed, s.open[a.tid]);
      CommitIsEvent(s.committed, s.open[a.tid]);
    }
  }

  /** `at[i]` transactions of the history have committed by step `i`. */
  ghost predicate Tracks(systems: seq<System>, states: seq<Run>, at: seq<nat>) {
    && |at| == |systems|
    && (forall i :: 0 <= i < |systems| ==> at[i] < |states| && states[at[i]] == systems[i].committed)
    && (forall i, j :: 0 <= i <= j < |at| ==> at[i] <= at[j])
  }

  lemma InterleavingPrefix(systems: seq<System>, actions: seq<Action>, k: nat)
    requires IsInterleaving(systems, actions) && k < |actions|
    ensures IsInterleaving(systems[..k + 1], actions[..k])
  {
    assert systems[..k + 1][0] == systems[0];
  }

  /** One more step after an interleaving. */
  lemma LastStep(systems: seq<System>, actions: seq<Action>, k: nat)
    requires IsInterleaving(systems, actions) && k < |actions|
    ensures var s, a := systems[k], actions[k];
            && CanStep(s, a) && systems[k + 1] == DoStep(s, a)
            && (if a.Commit?
                then && (s.open[a.tid].lease.None? ==> s.open[a.tid].phase.Completed?)
                     && Enabled(s.committed, CommittedEvent(s.open[a.tid]))
                     && systems[k + 1].committed == Apply(s.committed, CommittedEvent(s.open[a.tid]))
                else systems[k + 1].committed == s.committed)
  {
    InterleavingInv(systems, actions, k);
    StepRefines(systems[k], actions[k]);
  }

  lemma TracksOneMore(systems: seq<System>, states: seq<Run>, at: seq<nat>, states': seq<Run>, next: nat)
    requires |systems| > 1 && Tracks(systems[..|systems| - 1], states, at)
    requires states <= states' && next < |states'| && states'[next] == systems[|systems| - 1].committed
    requires at[|at| - 1] <= next
    ensures Tracks(systems, states', at + [next])
  {
    var at' := at + [next];
    forall i | 0 <= i < |systems|
      ensures at'[i] < |states'| && states'[at'[i]] == systems[i].committed
    {
      if i < |at| {
        assert systems[..|systems| - 1][i] == systems[i];
      }
    }
  }

  /** Event `e` of the history is the commit at step `when[e]` of the interleaving. */
  ghost predicate CommittedAt(
    systems: seq<System>, actions: seq<Action>, events: seq<Event>, at: seq<nat>, when: seq<nat>)
  {
    && |systems| == |actions| + 1 == |at| && |when| == |events|
    && forall e :: 0 <= e < |events| ==>
         && when[e] < |actions| && at[when[e]] == e
         && actions[when[e]].Commit? && actions[when[e]].tid in systems[when[e]].open
         && var t := systems[when[e]].open[actions[when[e]].tid];
            (t.lease.None? ==> t.phase.Completed?) && events[e] == CommittedEvent(t)
  }

  /** The committed rows of an interleaving go through a history of whole transactions. */
  lemma {:induction false} InterleavingRefinesHistory(systems: seq<System>, actions: seq<Action>)
    returns (states: seq<Run>, events: seq<Event>, at: seq<nat>, when: seq<nat>)
    requires IsInterleaving(systems, actions)
    ensures IsHistory(states, events) && states[0] == systems[0].committed
    ensures Tracks(systems, states, at) && at[|actions|] == |events|
    ensures CommittedAt(systems, actions, events, at, when)
    decreases |actions|
  {
    var k := |actions|;
    if k == 0 {
      states, events, at, when := [systems[0].committed], [], [0], [];
    } else {
      var before, done, at0, when0;
      InterleavingPrefix(systems, actions, k - 1);
      before, done, at0, when0 := InterleavingRefinesHistory(systems[..k], actions[..k - 1]);
      LastStep(systems, actions, k - 1);
      states, events, at, when := RefineLastStep(systems, actions, before, done, at0, when0);
    }
  }

  /** The history of all but the last step, carried over it. */
  lemma RefineLastStep(
    systems: seq<System>, actions: seq<Action>,
    before: seq<Run>, done: seq<Event>, at0: seq<nat>, when0: seq<nat>)
    returns (states: seq<Run>, events: seq<Event>, at: seq<nat>, when: seq<nat>)
    requires |actions| > 0 && |systems| == |actions| + 1
    requires IsHistory(before, done) && before[0] == systems[0].committed
    requires Tracks(systems[..|actions|], before, at0) && at0[|actions| - 1] == |done|
    requires CommittedAt(systems[..|actions|], actions[..|actions| - 1], done, at0, when0)
    requires var k := |actions| - 1;
             if actions[k].Commit?
             then && actions[k].tid in systems[k].open
                  && (systems[k].open[actions[k].tid].lease.None? ==> systems[k].open[actions[k].tid].phase.Completed?)
                  && Enabled(systems[k].committed, CommittedEvent(systems[k].open[actions[k].tid]))
                  && systems[k + 1].committed ==
                     Apply(systems[k].committed, CommittedEvent(systems[k].open[actions[k].tid]))
             else systems[k + 1].committed == systems[k].committed
    ensures IsHistory(states, events) && states[0] == systems[0].committed
    ensures Tracks(systems, states, at) && at[|actions|] == |events|
    ensures CommittedAt(systems, actions, events, at, when)
  {
    var k := |actions| - 1;
    var s, a, r := systems[k], actions[k], systems[k + 1].committed;
    assert systems[..|actions|][k] == s;
    states, events, when := before, done, when0;
    if a.Commit? {
      var ev := CommittedEvent(s.open[a.tid]);
      ExtendHistory(before, done, ev, r);
      states, events, when := before + [r], done + [ev], when0 + [k];
    }
    assert systems[..|systems| - 1] == systems[..|actions|];
    TracksOneMore(systems, before, at0, states, |events|);
    at := at0 + [|events|];
    CommittedAtOneMore(systems, actions, done, at0, when0, events, at, when);
  }

  lemma CommittedAtOneMore(
    systems: seq<System>, actions: seq<Action>, done: seq<Event>, at0: seq<nat>, when0: seq<nat>,
    events: seq<Event>, at: seq<nat>, when: seq<nat>)
    requires |actions| > 0 && |systems| == |actions| + 1
    requires CommittedAt(systems[..|actions|], actions[..|actions| - 1], done, at0, when0)
    requires at == at0 + [|events|] && at0[|actions| - 1] == |done|
    requires var k := |actions| - 1;
             if actions[k].Commit?
             then && actions[k].tid in systems[k].open
                  && (var t := systems[k].open[actions[k].tid];
                      (t.lease.None? ==> t.phase.Completed?) && events == done + [CommittedEvent(t)])
                  && when == when0 + [k]
             else events == done && when == when0
    ensures CommittedAt(systems, actions, events, at, when)
  {
    forall e | 0 <= e < |done|
      ensures when[e] < |actions| - 1 && at[when[e]] == e
      ensures systems[when[e]] == systems[..|actions|][when[e]] && actions[when[e]] == actions[..|actions| - 1][when[e]]
    {
      assert when[e] == when0[e];
    }
  }

  /** No committed state of any interleaving has a blocked node whose dependencies all
      have outputs, or an unfailed run with every output that is not done. */
  lemma NoLostWakeups(systems: seq<System>, actions: seq<Action>, i: nat)
    requires IsInterleaving(systems, actions) && i < |systems|
    ensures NoLostWakeup(systems[i].committed)
    ensures DependencySafe(systems[i].committed)
    ensures OutputsMatch(systems[i].committed)
  {
    InterleavingInv(systems, actions, i);
  }

  /** Once a failRun transaction has committed, every later committed state is failed and
      has nothing blocked or queued, even when completions and claims were in flight. */
  lemma FailureContainedUnderInterleaving(systems: seq<System>, actions: seq<Action>, i: nat, j: nat)
    requires IsInterleaving(systems, actions) && i <= j < |systems|
    requires systems[i].committed.status == RunFailed
    ensures systems[j].committed.status == RunFailed
    ensures forall n :: n in systems[j].committed.executions ==>
              systems[j].committed.executions[n].status in {Running, Done, Failed}
  {
    var states, events, at, _ := InterleavingRefinesHistory(systems, actions);
    FailureIsForever(states, events, at[i], at[j]);
  }

  // ---- schedule independence ----------------------------------------------------------------

  /** The output an action hands to completeStep, if it starts one. */
  ghost predicate StartsCompletion(s: System, a: Action, n: NodeId, output: Record) {
    || (a.BeginLater? && a.node == n && a.output == output)
    || (a.Issue? && a.statement == LockRun(output) && a.tid in s.open && s.open[a.tid].node == n)
  }

  ghost predicate AnsweredBefore(systems: seq<System>, i: nat, n: NodeId, output: Record, service: Service)
    requires i < |systems|
  {
    exists j :: 0 <= j <= i && Answered(systems[j].committed, n, output, service)
  }

  /** Every completion carries the service's answer to reads resolved from the rows
      committed at some earlier moment at which the node was queued or running. */
  ghost predicate DeterministicInterleaving(systems: seq<System>, actions: seq<Action>, service: Service) {
    |systems| == |actions| + 1 &&
    forall i, n, output :: 0 <= i < |actions| && StartsCompletion(systems[i], actions[i], n, output) ==>
      AnsweredBefore(systems, i, n, output, service)
  }

  predicate Completing(t: Txn) {
    !t.phase.Claimed? && !t.phase.RunMarkedFailed? && !t.phase.Sweeping?
  }

  lemma {:induction false} OpenCompletionsAreAnswered(
    systems: seq<System>, actions: seq<Action>, service: Service, i: nat, u: nat)
    requires IsInterleaving(systems, actions) && DeterministicInterleaving(systems, actions, service)
    requires i < |systems| && u in systems[i].open && Completing(systems[i].open[u])
    ensures AnsweredBefore(systems, i, systems[i].open[u].node, systems[i].open[u].output, service)
  {
    if i > 0 {
      var s, a, t := systems[i - 1], actions[i - 1], systems[i].open[u];
      assert systems[i] == DoStep(s, a);
      if StartsCompletion(s, a, t.node, t.output) && a.tid == u {
        assert AnsweredBefore(systems, i - 1, t.node, t.output, service);
      } else {
        OpenCompletionsAreAnswered(systems, actions, service, i - 1, u);
      }
    }
  }

  lemma RefinedHistoryIsDeterministic(
    systems: seq<System>, actions: seq<Action>, service: Service,
    states: seq<Run>, events: seq<Event>, at: seq<nat>, when: seq<nat>)
    requires IsInterleaving(systems, actions) && DeterministicInterleaving(systems, actions, service)
    requires |states| == |events| + 1 && Tracks(systems, states, at)
    requires CommittedAt(systems, actions, events, at, when)
    ensures Deterministic(states, events, service)
  {
    forall e, n, output | 0 <= e < |events| && Completes(events[e], n, output)
      ensures AnsweredBy(states, e, n, output, service)
    {
      var i := when[e];
      var u := actions[i].tid;
      OpenCompletionsAreAnswered(systems, actions, service, i, u);
      var j: nat :| j <= i && Answered(systems[j].committed, n, output, service);
      assert at[j] <= at[i] == e && Answered(states[at[j]], n, output, service);
    }
  }

  /** Under every interleaving, lease expiry, abort and repetition, a done run's outputs
      are the recursive evaluation of its document. */
  lemma InterleavedDoneRunIsEvaluation(systems: seq<System>, actions: seq<Action>, service: Service, i: nat)
    requires IsInterleaving(systems, actions) && DeterministicInterleaving(systems, actions, service)
    requires i < |systems| && systems[i].committed.status == RunDone
    ensures var c, spec := systems[i].committed, systems[0].committed.spec;
            && c.outputs.Keys == Ids(spec)
            && forall n :: n in Ids(spec) ==>
                 Evaluate(spec, systems[0].committed.input, service, |spec.steps|, n) == Some(c.outputs[n])
    ensures RunResult(systems[i].committed) ==
            Meaning(systems[0].committed.spec, systems[0].committed.input, service)
  {
    var states, events, at, when := InterleavingRefinesHistory(systems, actions);
    RefinedHistoryIsDeterministic(systems, actions, service, states, events, at, when);
    DoneRunIsEvaluation(states, events, service, at[i]);
    DoneResultIsMeaning(states, events, service, at[i]);
  }
}
