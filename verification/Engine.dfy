/**
  The interpreter's operations over the tables (src/engine/interpreter.ts), statement
  by statement inside one transaction, and the worker's claim-dispatch-complete cycle
  around them (src/apps/worker/worker-loop.ts). Each is proved against the value-level
  transaction of module Runs.
 */
module Engine {
  import opened Wrappers
  import opened WorkflowSpecs
  import opened Bindings
  import opened Runs
  import opened RunInvariants
  import opened RunHistories
  import opened RunProgress

  type RunId = nat

  // ---- assertPlainSteps --------------------------------------------------------------

  predicate PlainPrefix(nodes: seq<Node>, k: nat)
    requires k <= |nodes|
  {
    && (forall i :: 0 <= i < k ==> nodes[i].StepNode?)
    && (forall i, j :: 0 <= i < j < k ==> nodes[i].Id() != nodes[j].Id())
  }

  /** Node `k` is the first that makes the document unacceptable, and why. */
  ghost predicate FirstOffence(nodes: seq<Node>, k: nat, error: EngineError) {
    && k < |nodes| && PlainPrefix(nodes, k)
    && if !nodes[k].StepNode? then error == UnsupportedNodeKind(nodes[k].Id())
       else error == DuplicateNodeId(nodes[k].Id()) && exists i :: 0 <= i < k && nodes[i].Id() == nodes[k].Id()
  }

  ghost predicate StepsOf(spec: Spec, steps: seq<Step>) {
    |steps| == |spec.steps| && forall i :: 0 <= i < |steps| ==> spec.steps[i] == StepNode(steps[i])
  }

  method AssertPlainSteps(spec: Spec) returns (r: Result<seq<Step>, EngineError>)
    ensures r.Success? <==> Plain(spec)
    ensures r.Success? ==> StepsOf(spec, r.value)
    ensures r.Failure? ==> exists k: nat :: FirstOffence(spec.steps, k, r.error)
  {
    var seenIds: set<NodeId> := {};
    var steps: seq<Step> := [];
    for i := 0 to |spec.steps|
      invariant PlainPrefix(spec.steps, i)
      invariant seenIds == set j | 0 <= j < i :: spec.steps[j].Id()
      invariant |steps| == i && forall j :: 0 <= j < i ==> spec.steps[j] == StepNode(steps[j])
    {
      var node := spec.steps[i];
      if !node.StepNode? {
        assert FirstOffence(spec.steps, i, UnsupportedNodeKind(node.Id()));
        return Failure(UnsupportedNodeKind(node.Id()));
      }
      if node.Id() in seenIds {
        assert FirstOffence(spec.steps, i, DuplicateNodeId(node.Id()));
        return Failure(DuplicateNodeId(node.Id()));
      }
      seenIds := seenIds + {node.Id()};
      steps := steps + [node.step];
    }
    return Success(steps);
  }

  lemma StepOfPlain(spec: Spec, steps: seq<Step>, i: nat)
    requires Plain(spec) && StepsOf(spec, steps) && i < |steps|
    ensures FindStep(spec.steps, steps[i].id) == Some(steps[i])
    ensures Deps(spec, steps[i].id) == set id | id in CollectStepReferenceIds(steps[i])
    ensures steps[i].id in Ids(spec)
  {
    FindStepAt(spec.steps, i);
    assert spec.steps[i].Id() == steps[i].id;
  }

  // ---- dispatch ------------------------------------------------------------------------

  /** What dispatchStep can come back with: an output, a failure reported by the agent,
      a FatalError, or a RetryableError. */
  datatype Outcome = Answer(output: Record) | Rejected | Fatal | Retryable

  type Dispatch = (Step, Record) -> Outcome

  /** The whole transaction a worker cycle commits for a claimed node, if it commits. */
  ghost predicate CycleEvent(run: Run, ev: Event, dispatch: Dispatch) {
    && Enabled(run, ev) && WorkerEvent(ev)
    && var step := FindStep(run.spec.steps, ev.node);
       step.Some? &&
       var resolved := ResolveStepReads(run, step.value);
       if ev.ClaimComplete?
       then resolved.Success? && dispatch(step.value, resolved.value) == Answer(ev.output)
       else resolved.Failure? || dispatch(step.value, resolved.value) in {Rejected, Fatal}
  }

  ghost predicate IsCycle(
    before: map<RunId, Run>, after: map<RunId, Run>, lease: Lease, dispatch: Dispatch, r: RunId, ev: Event)
  {
    && r in before && CycleEvent(before[r], ev, dispatch) && ev.lease == lease
    && after == before[r := Apply(before[r], ev)]
  }

  /** One run went through one whole transaction of a worker, no other run changed. */
  ghost predicate CommittedCycle(before: map<RunId, Run>, after: map<RunId, Run>, lease: Lease, dispatch: Dispatch) {
    exists r, ev :: IsCycle(before, after, lease, dispatch, r, ev)
  }

  /** What dispatching a step of `run` comes to; an unresolvable read is fatal. */
  function StepOutcome(run: Run, n: NodeId, dispatch: Dispatch): Outcome {
    match FindStep(run.spec.steps, n)
    case None => Fatal
    case Some(step) =>
      match ResolveStepReads(run, step)
      case Failure(_) => Fatal
      case Success(resolved) => dispatch(step, resolved)
  }

  ghost predicate NeverRetryable(dispatch: Dispatch) {
    forall step, resolved :: dispatch(step, resolved) != Retryable
  }

  lemma NeverRetryableOutcome(run: Run, n: NodeId, dispatch: Dispatch)
    requires NeverRetryable(dispatch)
    ensures StepOutcome(run, n, dispatch) != Retryable
  {
  }

  function Settle(run: Run, n: NodeId, outcome: Outcome): Run
    requires n in run.executions
  {
    if outcome.Answer? then CompleteStep(run, n, outcome.output) else FailRun(run, n)
  }

  ghost function SettledEvent(run: Run, n: NodeId, lease: Lease, dispatch: Dispatch): Event {
    var outcome := StepOutcome(run, n, dispatch);
    if outcome.Answer? then ClaimComplete(n, lease, outcome.output) else ClaimFail(n, lease)
  }

  lemma CycleIsEvent(run: Run, n: NodeId, lease: Lease, dispatch: Dispatch)
    requires HasRows(run) && n in run.executions && Claimable(run.executions[n], lease.now)
    requires !StepOutcome(ClaimRow(run, n, lease), n, dispatch).Retryable?
    ensures CycleEvent(run, SettledEvent(run, n, lease, dispatch), dispatch)
    ensures Apply(run, SettledEvent(run, n, lease, dispatch)) ==
            Settle(ClaimRow(run, n, lease), n, StepOutcome(ClaimRow(run, n, lease), n, dispatch))
  {
    var _ := PlainStep(run.spec, n);
    assert StepOutcome(ClaimRow(run, n, lease), n, dispatch) == StepOutcome(run, n, dispatch);
  }

  lemma SettledIsCycle(
    before: map<RunId, Run>, after: map<RunId, Run>, r: RunId, n: NodeId, lease: Lease, dispatch: Dispatch)
    requires r in before && HasRows(before[r]) && n in before[r].executions
    requires Claimable(before[r].executions[n], lease.now)
    requires var outcome := StepOutcome(ClaimRow(before[r], n, lease), n, dispatch);
             !outcome.Retryable? && after == before[r := Settle(ClaimRow(before[r], n, lease), n, outcome)]
    ensures CommittedCycle(before, after, lease, dispatch)
  {
    CycleIsEvent(before[r], n, lease, dispatch);
    assert IsCycle(before, after, lease, dispatch, r, SettledEvent(before[r], n, lease, dispatch));
  }

  /** The row submitRun inserts for a step. */
  function InitialRow(spec: Spec, n: NodeId): Execution {
    Execution(if Deps(spec, n) == {} then Queued else Blocked, "", 0, 0)
  }

  function InitialRows(spec: Spec): map<NodeId, Execution> {
    map n | n in Ids(spec) :: InitialRow(spec, n)
  }

  ghost predicate InitialRowsBelow(spec: Spec, k: nat, rows: map<NodeId, Execution>)
    requires k <= |spec.steps|
  {
    && rows.Keys == (set j | 0 <= j < k :: spec.steps[j].Id())
    && forall n :: n in rows ==> rows[n] == InitialRow(spec, n)
  }

  lemma OneMoreInitialRow(spec: Spec, k: nat, rows: map<NodeId, Execution>)
    requires k < |spec.steps| && InitialRowsBelow(spec, k, rows)
    ensures var n := spec.steps[k].Id();
            InitialRowsBelow(spec, k + 1, rows[n := InitialRow(spec, n)])
  {
  }

  lemma SubmittedIsInserted(spec: Spec, input: Record)
    ensures Submitted(spec, input) ==
            Run(spec, input, if spec.steps == [] then RunDone else RunRunning, InitialRows(spec), map[], map[])
    ensures spec.steps == [] ==> InitialRows(spec) == map[]
  {
  }

  ghost function Pending(runs: map<RunId, Run>): set<(RunId, NodeId)> {
    set r, n | r in runs && n in Unfinished(runs[r]) :: (r, n)
  }

  lemma PendingDecreases(runs: map<RunId, Run>, r: RunId, ev: Event)
    requires r in runs && Enabled(runs[r], ev) && WorkerEvent(ev)
    ensures |Pending(runs[r := Apply(runs[r], ev)])| < |Pending(runs)|
  {
    WorkerEventDecreases(runs[r], ev);
    var before, after := Pending(runs), Pending(runs[r := Apply(runs[r], ev)]);
    assert (r, ev.node) in before && (r, ev.node) !in after;
    assert after <= before - {(r, ev.node)};
    SubsetCard(after, before - {(r, ev.node)});
  }

  /** A queued row, or a running one whose lease has expired. */
  ghost predicate CanBeClaimed(row: Execution, now: int) {
    row.status == Queued || (row.status == Running && row.leaseUntil < now)
  }

  ghost predicate AnyClaimable(runs: map<RunId, Run>, now: int) {
    exists r, n :: r in runs && n in runs[r].executions && CanBeClaimed(runs[r].executions[n], now)
  }

  /** Something can be claimed and its dispatch asks for no retry. */
  ghost predicate MustWork(runs: map<RunId, Run>, lease: Lease, dispatch: Dispatch) {
    AnyClaimable(runs, lease.now) && NeverRetryable(dispatch)
  }

  /** A cycle that did work committed one whole transaction; one that did not left every
      table as it was, and could not have been sure to do any. */
  ghost predicate CycleEffect(
    before: map<RunId, Run>, after: map<RunId, Run>, lease: Lease, dispatch: Dispatch, didWork: bool)
  {
    if didWork then CommittedCycle(before, after, lease, dispatch)
    else after == before && !MustWork(before, lease, dispatch)
  }

  /** The tables after these cycles, one after the other, `worked` of which did work. */
  ghost predicate Cycled(
    before: map<RunId, Run>, after: map<RunId, Run>, cycles: seq<(Lease, Dispatch)>, worked: nat)
    decreases |cycles|
  {
    if cycles == [] then worked == 0 && after == before
    else
      var init, last := cycles[..|cycles| - 1], cycles[|cycles| - 1];
      || (exists mid :: Cycled(before, mid, init, worked) && CycleEffect(mid, after, last.0, last.1, false))
      || (worked > 0 && exists mid ::
            Cycled(before, mid, init, worked - 1) && CycleEffect(mid, after, last.0, last.1, true))
  }

  lemma CycledOnce(
    before: map<RunId, Run>, mid: map<RunId, Run>, after: map<RunId, Run>,
    cycles: seq<(Lease, Dispatch)>, i: nat, worked: nat, didWork: bool)
    requires i < |cycles| && Cycled(before, mid, cycles[..i], worked)
    requires CycleEffect(mid, after, cycles[i].0, cycles[i].1, didWork)
    ensures Cycled(before, after, cycles[..i + 1], if didWork then worked + 1 else worked)
  {
    assert cycles[..i + 1][..i] == cycles[..i];
  }

  /** If the first cycle is sure to work, some cycle did. */
  lemma {:induction false} FirstCycleWorks(
    before: map<RunId, Run>, after: map<RunId, Run>, cycles: seq<(Lease, Dispatch)>, worked: nat)
    requires Cycled(before, after, cycles, worked)
    ensures |cycles| > 0 && MustWork(before, cycles[0].0, cycles[0].1) ==> worked > 0
    decreases |cycles|
  {
    if worked == 0 && cycles != [] {
      var init := cycles[..|cycles| - 1];
      var mid :| Cycled(before, mid, init, 0)
                 && CycleEffect(mid, after, cycles[|cycles| - 1].0, cycles[|cycles| - 1].1, false);
      FirstCycleWorks(before, mid, init, 0);
    }
  }

  ghost predicate AllInv(runs: map<RunId, Run>) {
    forall r :: r in runs ==> Inv(runs[r])
  }

  /** The rows of an accepted document. */
  ghost predicate HasRows(run: Run) {
    Plain(run.spec) && run.executions.Keys == Ids(run.spec)
  }

  ghost predicate AllHaveRows(runs: map<RunId, Run>) {
    forall r :: r in runs ==> HasRows(runs[r])
  }

  lemma InvHasRows(runs: map<RunId, Run>)
    requires AllInv(runs)
    ensures AllHaveRows(runs)
  {
    forall r | r in runs
      ensures HasRows(runs[r])
    {
      assert Inv(runs[r]);
    }
  }

  lemma UpdateInv(runs: map<RunId, Run>, r: RunId, run: Run)
    requires AllInv(runs) && Inv(run)
    ensures AllInv(runs[r := run])
  {
  }

  /** A committed worker cycle, seen from the whole table. */
  lemma CycleKeepsTables(before: map<RunId, Run>, after: map<RunId, Run>, lease: Lease, dispatch: Dispatch)
    requires AllInv(before) && CommittedCycle(before, after, lease, dispatch)
    ensures AllInv(after) && after.Keys == before.Keys && |Pending(after)| < |Pending(before)|
  {
    var r, ev :| IsCycle(before, after, lease, dispatch, r, ev);
    assert Inv(before[r]);
    ApplyInv(before[r], ev);
    UpdateInv(before, r, Apply(before[r], ev));
    PendingDecreases(before, r, ev);
  }

  /** Every output of the document is bound to something the engine can resolve once the
      run is done: a literal, a request parameter, or one of its own steps. */
  ghost predicate ResultResolves(spec: Spec) {
    forall i :: 0 <= i < |spec.outputs| ==>
      var b := spec.outputs[i].binding; b.Literal? || b.Request? || (b.StepOutput? && b.id in Ids(spec))
  }

  lemma ResultOfDone(run: Run)
    requires Inv(run) && run.status == RunDone
    ensures ResolveFields(run.spec.outputs, run.input, run.outputs).Success? <==> ResultResolves(run.spec)
    ensures ResultResolves(run.spec) ==>
              IsResolved(run.spec.outputs, run.input, run.outputs,
                         ResolveFields(run.spec.outputs, run.input, run.outputs).value)
  {
    DoneTable(run);
    ResolvesIff(run.spec.outputs, run.input, run.outputs);
  }

  // ---- the tables, in one transaction ----------------------------------------------------

  class CoreRepos {
    var runs: map<RunId, Run>
    var nextRunId: RunId

    ghost predicate Valid()
      reads this
    {
      (forall r :: r in runs ==> r < nextRunId) && AllInv(runs)
    }

    constructor ()
      ensures Valid() && runs == map[]
    {
      runs, nextRunId := map[], 0;
    }

    method EnqueueForRun(runId: RunId, nodeId: NodeId, status: Status)
      requires runId in runs
      modifies this`runs
      ensures runs == old(runs)[runId := old(runs)[runId].(executions :=
                        old(runs)[runId].executions[nodeId := Execution(status, "", 0, 0)])]
    {
      var run := runs[runId];
      runs := runs[runId := run.(executions := run.executions[nodeId := Execution(status, "", 0, 0)])];
    }

    method PromoteBlockedToQueued(runId: RunId, nodeId: NodeId)
      requires runId in runs
      modifies this`runs
      ensures runs == if nodeId in old(runs)[runId].executions
                      then old(runs)[runId :=
                             WithRow(old(runs)[runId], nodeId, PromotedRow(old(runs)[runId].executions[nodeId]))]
                      else old(runs)
    {
      var run := runs[runId];
      if nodeId in run.executions && run.executions[nodeId].status == Blocked {
        runs := runs[runId := run.(executions :=
          run.executions[nodeId := run.executions[nodeId].(status := Queued)])];
      } else if nodeId in run.executions {
        RowUnchanged(run, nodeId);
        assert runs == runs[runId := run];
      }
    }

    method InsertStepRow(runId: RunId, spec: Spec, steps: seq<Step>, i: nat)
      requires runId in runs && Plain(spec) && StepsOf(spec, steps) && i < |steps|
      modifies this`runs
      ensures runs == old(runs)[runId := old(runs)[runId].(executions :=
                        old(runs)[runId].executions[steps[i].id := InitialRow(spec, steps[i].id)])]
    {
      StepOfPlain(spec, steps, i);
      var deps := ComputeStepDependencies(steps[i]);
      DependenciesAreDeps(steps[i], deps);
      EnqueueForRun(runId, steps[i].id, if |deps| == 0 then Queued else Blocked);
    }

    /** One execution row per step: queued if it waits for nothing, blocked otherwise. */
    method InsertStepRows(runId: RunId, spec: Spec, steps: seq<Step>)
      requires runId in runs && runs[runId].executions == map[]
      requires Plain(spec) && StepsOf(spec, steps)
      modifies this`runs
      ensures runs == old(runs)[runId := old(runs)[runId].(executions := InitialRows(spec))]
    {
      ghost var start := runs[runId];
      ghost var rows: map<NodeId, Execution> := map[];
      for i := 0 to |steps|
        invariant runs == old(runs)[runId := start.(executions := rows)]
        invariant InitialRowsBelow(spec, i, rows)
      {
        OneMoreInitialRow(spec, i, rows);
        rows := rows[steps[i].id := InitialRow(spec, steps[i].id)];
        InsertStepRow(runId, spec, steps, i);
      }
      assert rows == InitialRows(spec);
    }

    /** submitRun: the run row, then its execution rows. */
    method SubmitRun(spec: Spec, input: Record) returns (r: Result<RunId, EngineError>)
      requires Valid()
      modifies this
      ensures Valid()
      ensures r.Success? <==> Plain(spec)
      ensures r.Success? ==> r.value !in old(runs) && runs == old(runs)[r.value := Submitted(spec, input)]
      ensures r.Failure? ==> runs == old(runs) && exists k: nat :: FirstOffence(spec.steps, k, r.error)
    {
      var plain := AssertPlainSteps(spec);
      if plain.Failure? {
        return Failure(plain.error);
      }
      SubmittedInv(spec, input);
      UpdateInv(runs, nextRunId, Submitted(spec, input));
      var runId := InsertRun(spec, input, plain.value);
      return Success(runId);
    }

    method InsertRun(spec: Spec, input: Record, steps: seq<Step>) returns (runId: RunId)
      requires Plain(spec) && StepsOf(spec, steps)
      modifies this
      ensures runId == old(nextRunId) && nextRunId == runId + 1
      ensures runs == old(runs)[runId := Submitted(spec, input)]
    {
      runId := nextRunId;
      nextRunId := nextRunId + 1;
      runs := runs[runId := Run(spec, input, RunRunning, map[], map[], map[])];
      if |steps| == 0 {
        runs := runs[runId := MarkRunDone(runs[runId])];
      } else {
        InsertStepRows(runId, spec, steps);
      }
      SubmittedIsInserted(spec, input);
    }

    /** promoteReadyNodes. */
    method PromoteReadyNodes(runId: RunId, completedIds: set<NodeId>)
      requires runId in runs && Plain(runs[runId].spec)
      requires runs[runId].executions.Keys == Ids(runs[runId].spec)
      modifies this`runs
      ensures runs == old(runs)[runId :=
                Promote(old(runs)[runId], completedIds, old(runs)[runId].executions.Keys)]
    {
      var plain := AssertPlainSteps(runs[runId].spec);
      PromoteSteps(runId, plain.value, completedIds);
    }

    method PromoteSteps(runId: RunId, steps: seq<Step>, completedIds: set<NodeId>)
      requires runId in runs && Plain(runs[runId].spec) && StepsOf(runs[runId].spec, steps)
      requires runs[runId].executions.Keys == Ids(runs[runId].spec)
      modifies this`runs
      ensures runs == old(runs)[runId :=
                Promote(old(runs)[runId], completedIds, old(runs)[runId].executions.Keys)]
    {
      ghost var start := runs[runId];
      PromoteNone(start, completedIds, IdsBelow(start.spec, 0));
      assert runs == runs[runId := start];
      for i := 0 to |steps|
        invariant runs == old(runs)[runId := Promote(start, completedIds, IdsBelow(start.spec, i))]
      {
        PromoteStep(runId, steps, i, completedIds, start);
        Overwrite(old(runs), runId, Promote(start, completedIds, IdsBelow(start.spec, i)), runs[runId]);
      }
      assert IdsBelow(start.spec, |steps|) == Ids(start.spec);
    }

    /** One iteration of promoteReadyNodes on a run promoted so far. */
    method PromoteStep(runId: RunId, steps: seq<Step>, i: nat, completedIds: set<NodeId>, ghost start: Run)
      requires i < |steps| && Plain(start.spec) && StepsOf(start.spec, steps)
      requires start.executions.Keys == Ids(start.spec)
      requires runId in runs && runs[runId] == Promote(start, completedIds, IdsBelow(start.spec, i))
      modifies this`runs
      ensures runs == old(runs)[runId := Promote(start, completedIds, IdsBelow(start.spec, i + 1))]
    {
      StepOfPlain(start.spec, steps, i);
      NextIsNew(start.spec, i);
      PromoteOneMore(start, completedIds, IdsBelow(start.spec, i), steps[i].id);
      assert runs == runs[runId := runs[runId]];
      PromoteIfReady(runId, steps[i], completedIds);
    }

    /** The guarded update of promoteReadyNodes for one step. */
    method PromoteIfReady(runId: RunId, step: Step, completedIds: set<NodeId>)
      requires runId in runs && step.id in runs[runId].executions
      requires Deps(runs[runId].spec, step.id) == set id | id in CollectStepReferenceIds(step)
      modifies this`runs
      ensures runs == if Ready(old(runs)[runId].spec, step.id, completedIds)
                      then old(runs)[runId :=
                             WithRow(old(runs)[runId], step.id, PromotedRow(old(runs)[runId].executions[step.id]))]
                      else old(runs)
    {
      if step.id in completedIds {
        return;
      }
      var deps := ComputeStepDependencies(step);
      DependenciesAreDeps(step, deps);
      if forall d :: d in deps ==> d in completedIds {
        PromoteBlockedToQueued(runId, step.id);
      }
    }

    /** completeStep. The run's row lock is taken by the caller's transaction first; it
        has no effect on the rows. */
    method CompleteStep(runId: RunId, nodeId: NodeId, output: Record)
      requires runId in runs && Plain(runs[runId].spec) && nodeId in runs[runId].executions
      requires runs[runId].executions.Keys == Ids(runs[runId].spec)
      modifies this`runs
      ensures runs == old(runs)[runId := Runs.CompleteStep(old(runs)[runId], nodeId, output)]
    {
      CompleteStepIsFinish(runs[runId], nodeId, output);
      RecordCompletion(runId, nodeId, output);
      PromoteAndFinish(runId);
    }

    /** What completeStep does once the output is recorded. */
    method PromoteAndFinish(runId: RunId)
      requires runId in runs && Plain(runs[runId].spec)
      requires runs[runId].executions.Keys == Ids(runs[runId].spec)
      modifies this`runs
      ensures runs == old(runs)[runId := Finish(Promote(old(runs)[runId], old(runs)[runId].outputs.Keys,
                                                        old(runs)[runId].executions.Keys))]
    {
      var completedIds := runs[runId].outputs.Keys;
      PromoteReadyNodes(runId, completedIds);
      MarkDoneIfComplete(runId, completedIds);
    }

    method RecordCompletion(runId: RunId, nodeId: NodeId, output: Record)
      requires runId in runs && nodeId in runs[runId].executions
      modifies this`runs
      ensures runs == old(runs)[runId := Recorded(old(runs)[runId], nodeId, output)]
    {
      CompleteExecution(runId, nodeId, output);
      RecordOutput(runId, nodeId, output);
    }

    method MarkDoneIfComplete(runId: RunId, completedIds: set<NodeId>)
      requires runId in runs && Plain(runs[runId].spec) && completedIds == runs[runId].outputs.Keys
      modifies this`runs
      ensures runs == old(runs)[runId := Finish(old(runs)[runId])]
    {
      assert runs == runs[runId := runs[runId]];
      var plain := AssertPlainSteps(runs[runId].spec);
      StepIds(runs[runId].spec, plain.value);
      if forall i :: 0 <= i < |plain.value| ==> plain.value[i].id in completedIds {
        runs := runs[runId := MarkRunDone(runs[runId])];
      }
    }

    /** completeExecution: the checkpoint, then the row's status. */
    method CompleteExecution(runId: RunId, nodeId: NodeId, output: Record)
      requires runId in runs && nodeId in runs[runId].executions
      modifies this`runs
      ensures runId in runs && runs == old(runs)[runId := runs[runId]]
      ensures var before, after := old(runs)[runId], runs[runId];
              && after == before.(executions := after.executions, checkpoints := after.checkpoints)
              && after.executions == before.executions[nodeId := before.executions[nodeId].(status := Done)]
              && (nodeId in before.checkpoints ==> after.checkpoints == before.checkpoints)
              && (nodeId !in before.checkpoints ==> after.checkpoints == before.checkpoints[nodeId := output])
      ensures nodeId in old(runs)[runId].checkpoints && old(runs)[runId].executions[nodeId].status == Done ==>
                runs == old(runs)
    {
      var run := runs[runId];
      run := run.(checkpoints := InsertIfAbsent(run.checkpoints, nodeId, output));
      run := run.(executions := run.executions[nodeId := run.executions[nodeId].(status := Done)]);
      assert runs[runId].executions[nodeId].status == Done ==> run.executions == runs[runId].executions;
      assert runs == runs[runId := runs[runId]];
      runs := runs[runId := run];
    }

    /** RunNodeOutputsRepo.record. */
    method RecordOutput(runId: RunId, nodeId: NodeId, output: Record)
      requires runId in runs
      modifies this`runs
      ensures runId in runs && nodeId in runs[runId].outputs
      ensures nodeId in old(runs)[runId].outputs ==> runs == old(runs)
      ensures nodeId !in old(runs)[runId].outputs ==>
                runs == old(runs)[runId := old(runs)[runId].(outputs := old(runs)[runId].outputs[nodeId := output])]
    {
      var run := runs[runId];
      runs := runs[runId := run.(outputs := InsertIfAbsent(run.outputs, nodeId, output))];
    }

    /** failRun: the run, the execution, then whatever was not claimed yet. */
    method FailRun(runId: RunId, nodeId: NodeId)
      requires runId in runs && nodeId in runs[runId].executions
      modifies this`runs
      ensures runs == old(runs)[runId := Runs.FailRun(old(runs)[runId], nodeId)]
    {
      var run := runs[runId].(status := RunFailed);
      run := run.(executions := run.executions[nodeId := run.executions[nodeId].(status := Failed)]);
      run := run.(executions := map n | n in run.executions ::
        if Unclaimed(run.executions[n].status) then run.executions[n].(status := Failed) else run.executions[n]);
      assert run.executions == Runs.FailRun(runs[runId], nodeId).executions;
      runs := runs[runId := run];
    }

    /** resolveStepReads: fetches the outputs of the step's dependencies one by one. */
    method FetchStepReads(runId: RunId, step: Step) returns (r: Result<Record, EngineError>)
      requires runId in runs
      ensures r == ResolveStepReads(runs[runId], step)
      ensures r.Success? <==> AllResolvable(step.inputs, runs[runId].outputs)
      ensures r.Success? ==> IsResolved(step.inputs, runs[runId].input, runs[runId].outputs, r.value)
    {
      var deps := ComputeStepDependencies(step);
      var nodeOutputs: Outputs := map[];
      ghost var recorded := runs[runId].outputs;
      ghost var fetched: set<NodeId> := {};
      for i := 0 to |deps|
        invariant fetched == (set d | d in deps[..i]) && nodeOutputs == FetchedOutputs(recorded, fetched)
      {
        if deps[i] in runs[runId].outputs {
          nodeOutputs := nodeOutputs[deps[i] := runs[runId].outputs[deps[i]]];
        }
        FetchedOneMore(recorded, fetched, deps[i]);
        assert deps[..i + 1] == deps[..i] + [deps[i]];
        fetched := fetched + {deps[i]};
      }
      assert deps[..|deps|] == deps;
      r := ResolveFields(step.inputs, runs[runId].input, nodeOutputs);
      DependenciesAreDeps(step, deps);
      StepReadsAreRecordedValues(runs[runId], step);
    }

    /** getRunResult: refetches the run and every recorded output. */
    method GetRunResult(runId: RunId) returns (r: Result<(RunStatus, Option<Record>), EngineError>)
      requires Valid()
      ensures r.Failure? <==>
                runId !in runs || (runs[runId].status == RunDone && !ResultResolves(runs[runId].spec))
      ensures runId in runs && runs[runId].status != RunDone ==> r == Success((runs[runId].status, None))
      ensures r.Success? && runs[runId].status == RunDone ==>
                && r.value.0 == RunDone && r.value.1.Some?
                && IsResolved(runs[runId].spec.outputs, runs[runId].input, runs[runId].outputs, r.value.1.value)
      ensures runId in runs ==> r == RunResult(runs[runId])
    {
      if runId !in runs {
        return Failure(RunNotFound);
      }
      var run := runs[runId];
      if run.status != RunDone {
        return Success((run.status, None));
      }
      var nodeOutputs := FetchOutputs(runId, run.outputs.Keys);
      assert nodeOutputs == run.outputs;
      ResultOfDone(run);
      var outputs := ResolveFields(run.spec.outputs, run.input, nodeOutputs);
      if outputs.Failure? {
        return Failure(outputs.error);
      }
      return Success((RunDone, Some(outputs.value)));
    }

    /** Fetches recorded outputs one by one, in any order. */
    method FetchOutputs(runId: RunId, ids: set<NodeId>) returns (nodeOutputs: Outputs)
      requires runId in runs && ids <= runs[runId].outputs.Keys
      ensures nodeOutputs == FetchedOutputs(runs[runId].outputs, ids)
    {
      nodeOutputs := map[];
      var unread := ids;
      while unread != {}
        invariant unread <= ids && nodeOutputs == FetchedOutputs(runs[runId].outputs, ids - unread)
        decreases |unread|
      {
        var n :| n in unread;
        FetchedOneMore(runs[runId].outputs, ids - unread, n);
        assert ids - (unread - {n}) == (ids - unread) + {n};
        nodeOutputs := nodeOutputs[n := runs[runId].outputs[n]];
        unread := unread - {n};
      }
    }

    /** claim_execution: some claimable row, or none. */
    method ClaimExecution(lease: Lease) returns (claimed: Option<(RunId, NodeId)>)
      modifies this`runs
      ensures claimed.None? <==> !AnyClaimable(old(runs), lease.now)
      ensures claimed.None? ==> runs == old(runs)
      ensures claimed.Some? ==>
                var (r, n) := claimed.value;
                && r in old(runs) && n in old(runs)[r].executions
                && CanBeClaimed(old(runs)[r].executions[n], lease.now)
                && runs == old(runs)[r := ClaimRow(old(runs)[r], n, lease)]
                && runs[r].executions[n] == Execution(Running, lease.worker, lease.leaseUntil,
                                                      old(runs)[r].executions[n].attempts + 1)
    {
      var rows := set r, n |
        r in runs && n in runs[r].executions && Claimable(runs[r].executions[n], lease.now) :: (r, n);
      if rows == {} {
        assert forall r, n :: r in runs && n in runs[r].executions && Claimable(runs[r].executions[n], lease.now) ==>
                 (r, n) in rows;
        return None;
      }
      var row :| row in rows;
      runs := runs[row.0 := ClaimRow(runs[row.0], row.1, lease)];
      return Some(row);
    }

    /** Dispatches a claimed step and completes or fails it; `done` is false when the
        dispatch raised a retryable error, which leaves the claim for the caller to roll
        back. */
    method ProcessClaimed(runId: RunId, nodeId: NodeId, dispatch: Dispatch) returns (done: bool)
      requires runId in runs && nodeId in runs[runId].executions && HasRows(runs[runId])
      modifies this`runs
      ensures StepOutcome(old(runs)[runId], nodeId, dispatch).Retryable? <==> !done
      ensures done ==> runs == old(runs)[runId :=
                Settle(old(runs)[runId], nodeId, StepOutcome(old(runs)[runId], nodeId, dispatch))]
    {
      var _ := PlainStep(runs[runId].spec, nodeId);
      var step := FindStep(runs[runId].spec.steps, nodeId);
      var resolved := FetchStepReads(runId, step.value);
      var outcome := if resolved.Success? then dispatch(step.value, resolved.value) else Fatal;
      if outcome.Retryable? {
        return false;
      }
      if outcome.Answer? {
        CompleteStep(runId, nodeId, outcome.output);
      } else {
        FailRun(runId, nodeId);
      }
      return true;
    }

    /** The body of the worker's transaction: one whole cycle if it is done; if not, there
        was nothing to claim or the dispatch was retryable. */
    method ClaimAndProcess(lease: Lease, dispatch: Dispatch) returns (done: bool)
      requires AllHaveRows(runs)
      modifies this`runs
      ensures done ==> CommittedCycle(old(runs), runs, lease, dispatch)
      ensures AnyClaimable(old(runs), lease.now) && NeverRetryable(dispatch) ==> done
    {
      ghost var begin := runs;
      var claimed := ClaimExecution(lease);
      if claimed.None? {
        return false;
      }
      ghost var before, nodeId := begin[claimed.value.0], claimed.value.1;
      assert HasRows(before) && Claimable(before.executions[nodeId], lease.now);
      done := ProcessClaimed(claimed.value.0, claimed.value.1, dispatch);
      if done {
        SettledIsCycle(begin, runs, claimed.value.0, nodeId, lease, dispatch);
      } else if NeverRetryable(dispatch) {
        NeverRetryableOutcome(ClaimRow(before, nodeId, lease), nodeId, dispatch);
      }
    }

    /**
      One claim, dispatch, complete-or-fail cycle in one transaction. A retryable error
      rolls the whole transaction back, the claim included.
     */
    method RunOnce(lease: Lease, dispatch: Dispatch) returns (didWork: bool)
      requires Valid()
      modifies this`runs
      ensures Valid() && CycleEffect(old(runs), runs, lease, dispatch, didWork)
      ensures didWork ==> |Pending(runs)| < |Pending(old(runs))|
    {
      var begin := runs;
      InvHasRows(runs);
      didWork := ClaimAndProcess(lease, dispatch);
      if didWork {
        CycleKeepsTables(begin, runs, lease, dispatch);
      } else {
        runs := begin;
      }
    }

    /** The worker loop, for as many cycles as run before the abort signal fires. */
    method RunWorkerLoop(cycles: seq<(Lease, Dispatch)>) returns (worked: nat)
      requires Valid()
      modifies this`runs
      ensures Valid()
      ensures Cycled(old(runs), runs, cycles, worked)
      ensures worked + |Pending(runs)| <= |Pending(old(runs))|
      ensures |cycles| > 0 && MustWork(old(runs), cycles[0].0, cycles[0].1) ==> worked > 0
    {
      worked := 0;
      var i := 0;
      while i < |cycles|
        invariant i <= |cycles| && Valid()
        invariant Cycled(old(runs), runs, cycles[..i], worked)
        invariant worked + |Pending(runs)| <= |Pending(old(runs))|
      {
        ghost var before := runs;
        var didWork := RunOnce(cycles[i].0, cycles[i].1);
        CycledOnce(old(runs), before, runs, cycles, i, worked, didWork);
        worked := if didWork then worked + 1 else worked;
        i := i + 1;
      }
      assert cycles[..|cycles|] == cycles;
      FirstCycleWorks(old(runs), runs, cycles, worked);
    }
  }

  lemma DependenciesAreDeps(step: Step, deps: seq<NodeId>)
    requires forall id :: id in deps <==> id in CollectStepReferenceIds(step)
    ensures (set id | id in CollectStepReferenceIds(step)) == set id | id in deps
    ensures |deps| == 0 <==> (set id | id in CollectStepReferenceIds(step)) == {}
  {
    var all := set id | id in CollectStepReferenceIds(step);
    if |deps| > 0 {
      assert deps[0] in deps && deps[0] in all;
    } else {
      assert forall id :: id in all ==> id in deps;
    }
  }

  lemma Overwrite(runs: map<RunId, Run>, r: RunId, a: Run, b: Run)
    ensures runs[r := a][r := b] == runs[r := b]
  {
  }

  lemma FetchedOneMore(outputs: Outputs, ids: set<NodeId>, d: NodeId)
    ensures FetchedOutputs(outputs, ids + {d}) ==
            if d in outputs then FetchedOutputs(outputs, ids)[d := outputs[d]] else FetchedOutputs(outputs, ids)
  {
  }

  lemma StepIds(spec: Spec, steps: seq<Step>)
    requires StepsOf(spec, steps)
    ensures Ids(spec) == set i | 0 <= i < |steps| :: steps[i].id
  {
    assert forall i :: 0 <= i < |steps| ==> spec.steps[i].Id() == steps[i].id;
  }

  // ---- worker histories ----------------------------------------------------------------

  /** A worker's cycle on a claimed step: it commits, or the dispatch asks for a retry and
      everything is rolled back. What the dispatch does may differ from cycle to cycle. */
  datatype Cycle =
    | Committed(ev: Event, dispatch: Dispatch)
    | RolledBack(node: NodeId, lease: Lease, dispatch: Dispatch)

  ghost predicate CycleStep(run: Run, cycle: Cycle, next: Run) {
    match cycle
    case Committed(ev, dispatch) => CycleEvent(run, ev, dispatch) && next == Apply(run, ev)
    case RolledBack(n, lease, dispatch) =>
      && n in run.executions && Claimable(run.executions[n], lease.now)
      && StepOutcome(ClaimRow(run, n, lease), n, dispatch).Retryable?
      && next == run
  }

  /** What a pool of workers does to a run from its submission on. */
  ghost predicate IsWorkerRun(states: seq<Run>, cycles: seq<Cycle>) {
    && |states| == |cycles| + 1
    && Plain(states[0].spec)
    && states[0] == Submitted(states[0].spec, states[0].input)
    && forall i {:trigger cycles[i]} :: 0 <= i < |cycles| ==> CycleStep(states[i], cycles[i], states[i + 1])
  }

  /** The dispatch answers, when it answers, as the service does. */
  ghost predicate Serves(dispatch: Dispatch, service: Service) {
    forall step, resolved :: dispatch(step, resolved).Answer? ==>
      dispatch(step, resolved).output == service(step, resolved)
  }

  ghost predicate AllServe(cycles: seq<Cycle>, service: Service) {
    forall i :: 0 <= i < |cycles| ==> Serves(cycles[i].dispatch, service)
  }

  /** Every completion carries the answer to reads resolved right where it was claimed. */
  ghost predicate AnsweredAtOnce(states: seq<Run>, events: seq<Event>, service: Service) {
    |states| == |events| + 1 &&
    forall i, n, output :: 0 <= i < |events| && Completes(events[i], n, output) ==>
      Answered(states[i], n, output, service)
  }

  lemma CycleIsAnswered(run: Run, ev: Event, dispatch: Dispatch, service: Service, n: NodeId, output: Record)
    requires CycleEvent(run, ev, dispatch) && Completes(ev, n, output) && Serves(dispatch, service)
    ensures Answered(run, n, output, service)
  {
  }

  /** One more committed cycle after a history. */
  lemma CommitOneMore(
    history: seq<Run>, events: seq<Event>, ev: Event, dispatch: Dispatch, next: Run, service: Service)
    requires IsHistory(history, events) && AnsweredAtOnce(history, events, service) && Serves(dispatch, service)
    requires CycleEvent(history[|events|], ev, dispatch) && next == Apply(history[|events|], ev)
    ensures IsHistory(history + [next], events + [ev])
    ensures AnsweredAtOnce(history + [next], events + [ev], service)
  {
    var last := history[|events|];
    ExtendHistory(history, events, ev, next);
    forall n, output | Completes(ev, n, output)
      ensures Answered(last, n, output, service)
    {
      CycleIsAnswered(last, ev, dispatch, service, n, output);
    }
    AnsweredOneMore(history, events, ev, next, service);
  }

  lemma AnsweredOneMore(history: seq<Run>, events: seq<Event>, ev: Event, next: Run, service: Service)
    requires AnsweredAtOnce(history, events, service)
    requires forall n, output :: Completes(ev, n, output) ==> Answered(history[|events|], n, output, service)
    ensures AnsweredAtOnce(history + [next], events + [ev], service)
  {
    forall i, n, output | 0 <= i < |events + [ev]| && Completes((events + [ev])[i], n, output)
      ensures Answered((history + [next])[i], n, output, service)
    {
      if i < |events| {
        assert (events + [ev])[i] == events[i];
      }
    }
  }

  /** A pool's cycles, the rolled-back ones left out, are a history of whole transactions
      that ends in the same state. */
  lemma {:induction false} CommittedCycles(states: seq<Run>, cycles: seq<Cycle>, service: Service)
    returns (history: seq<Run>, events: seq<Event>)
    requires IsWorkerRun(states, cycles) && AllServe(cycles, service)
    ensures IsHistory(history, events) && AnsweredAtOnce(history, events, service)
    ensures history[0] == states[0] && history[|events|] == states[|cycles|]
    decreases |cycles|
  {
    var k := |cycles|;
    if k == 0 {
      history, events := states, [];
    } else {
      history, events := CommittedCycles(states[..k], cycles[..k - 1], service);
      var cycle := cycles[k - 1];
      if cycle.Committed? {
        CommitOneMore(history, events, cycle.ev, cycle.dispatch, states[k], service);
        history, events := history + [states[k]], events + [cycle.ev];
      }
    }
  }

  /** A pool of workers that answers as a service does is deterministic in the sense of
      schedule independence, whatever it fails and retries. */
  lemma WorkerRunIsDeterministic(states: seq<Run>, cycles: seq<Cycle>, service: Service)
    returns (history: seq<Run>, events: seq<Event>)
    requires IsWorkerRun(states, cycles) && AllServe(cycles, service)
    ensures IsHistory(history, events) && Deterministic(history, events, service)
    ensures history[0] == states[0] && history[|events|] == states[|cycles|]
  {
    history, events := CommittedCycles(states, cycles, service);
    forall i, n, output | 0 <= i < |events| && Completes(events[i], n, output)
      ensures AnsweredBy(history, i, n, output, service)
    {
      assert Answered(history[i], n, output, service);
    }
  }

  /** Any two pools of workers, each cycle of each dispatching, failing and asking for
      retries in its own way, that answer as one service does report the same result for
      a document and input once they are done. */
  lemma WorkersAgree(
    states: seq<Run>, cycles: seq<Cycle>, states': seq<Run>, cycles': seq<Cycle>, service: Service)
    requires IsWorkerRun(states, cycles) && AllServe(cycles, service)
    requires IsWorkerRun(states', cycles') && AllServe(cycles', service)
    requires states[0].spec == states'[0].spec && states[0].input == states'[0].input
    requires states[|cycles|].status == RunDone && states'[|cycles'|].status == RunDone
    ensures RunResult(states[|cycles|]) == RunResult(states'[|cycles'|])
    ensures RunResult(states[|cycles|]) == Meaning(states[0].spec, states[0].input, service)
  {
    var history, events := WorkerRunIsDeterministic(states, cycles, service);
    var history', events' := WorkerRunIsDeterministic(states', cycles', service);
    DoneResultIsMeaning(history, events, service, |events|);
    DoneResultIsMeaning(history', events', service, |events'|);
  }
}
