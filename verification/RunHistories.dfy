/**
  Whole histories of one run: any sequence of committed transactions after its
  submission, by any number of workers and other callers, in any order.
 */
module RunHistories {
  import opened Wrappers
  import opened WorkflowSpecs
  import opened Bindings
  import opened Runs
  import opened RunInvariants

  ghost predicate IsHistory(states: seq<Run>, events: seq<Event>) {
    && |states| == |events| + 1
    && Plain(states[0].spec)
    && states[0] == Submitted(states[0].spec, states[0].input)
    && forall i {:trigger events[i]} :: 0 <= i < |events| ==>
         Enabled(states[i], events[i]) && states[i + 1] == Apply(states[i], events[i])
  }

  lemma {:induction false} HistoryInv(states: seq<Run>, events: seq<Event>, i: nat)
    requires IsHistory(states, events) && i < |states|
    ensures Inv(states[i])
  {
    if i == 0 {
      SubmittedInv(states[0].spec, states[0].input);
    } else {
      HistoryInv(states, events, i - 1);
      ApplyInv(states[i - 1], events[i - 1]);
    }
  }

  lemma ExtendHistory(states: seq<Run>, events: seq<Event>, ev: Event, r: Run)
    requires IsHistory(states, events) && Enabled(states[|events|], ev) && r == Apply(states[|events|], ev)
    ensures IsHistory(states + [r], events + [ev])
  {
  }

  // ---- what is never taken back ----------------------------------------------

  /** `later` can follow `earlier`: the document is fixed, outputs are write-once, and
      failed and done are both final. */
  ghost predicate Extends(earlier: Run, later: Run) {
    && later.spec == earlier.spec && later.input == earlier.input
    && (forall n :: n in earlier.outputs ==> n in later.outputs && later.outputs[n] == earlier.outputs[n])
    && (earlier.status != RunRunning ==> later.status == earlier.status)
  }

  lemma CompletedFromExtends(run: Run, n: NodeId, output: Record, r: Run)
    requires n in run.executions && CompletedFrom(run, n, output, r)
    requires run.status == RunDone ==> Ids(run.spec) <= run.outputs.Keys
    ensures Extends(run, r)
  {
    assert run.outputs.Keys <= r.outputs.Keys;
  }

  /** A run with a claimable execution is not done. */
  lemma ClaimableMeansNotDone(run: Run, n: NodeId, now: int)
    requires OutputsMatch(run) && NoLostWakeup(run) && n in run.executions && Claimable(run.executions[n], now)
    ensures run.status != RunDone && n !in run.outputs
  {
  }

  lemma ApplyExtends(run: Run, ev: Event)
    requires Inv(run) && Enabled(run, ev)
    ensures Extends(run, Apply(run, ev))
  {
    var n := ev.node;
    match ev
    case ClaimOnly(_, _) =>
    case ClaimComplete(_, lease, output) =>
      CompleteStepRows(ClaimRow(run, n, lease), n, output);
      CompletedFromExtends(ClaimRow(run, n, lease), n, output, Apply(run, ev));
    case ClaimFail(_, lease) =>
      ClaimableMeansNotDone(run, n, lease.now);
      FailRunRows(ClaimRow(run, n, lease), n);
    case Complete(_, output) =>
      CompleteStepRows(run, n, output);
      CompletedFromExtends(run, n, output, Apply(run, ev));
  }

  lemma HistoryStep(states: seq<Run>, events: seq<Event>, i: nat)
    requires IsHistory(states, events) && i < |events|
    ensures Extends(states[i], states[i + 1])
  {
    HistoryInv(states, events, i);
    ApplyExtends(states[i], events[i]);
  }

  lemma ExtendsTransitive(a: Run, b: Run, c: Run)
    requires Extends(a, b) && Extends(b, c)
    ensures Extends(a, c)
  {
  }

  lemma {:induction false} HistoryExtends(states: seq<Run>, events: seq<Event>, i: nat, j: nat)
    requires IsHistory(states, events) && i <= j < |states|
    ensures Extends(states[i], states[j])
    decreases j - i
  {
    if i < j {
      HistoryExtends(states, events, i, j - 1);
      HistoryStep(states, events, j - 1);
      ExtendsTransitive(states[i], states[j - 1], states[j]);
    }
  }

  /** A failed run stays failed, and none of its executions is ever again blocked,
      queued or waiting, however late other completions and claims commit. */
  lemma FailureIsForever(states: seq<Run>, events: seq<Event>, i: nat, j: nat)
    requires IsHistory(states, events) && i <= j < |states|
    requires states[i].status == RunFailed
    ensures states[j].status == RunFailed
    ensures forall n :: n in states[j].executions ==> states[j].executions[n].status in {Running, Done, Failed}
  {
    HistoryExtends(states, events, i, j);
    HistoryInv(states, events, j);
  }

  lemma DoneTable(run: Run)
    requires OutputsMatch(run) && NoLostWakeup(run) && run.status == RunDone
    ensures run.outputs.Keys == Ids(run.spec)
  {
  }

  /** A done run keeps its status and its whole output table. markFailed has no guard
      against a done run; it is safe because a done run has nothing left to claim. */
  lemma DoneIsForever(states: seq<Run>, events: seq<Event>, i: nat, j: nat)
    requires IsHistory(states, events) && i <= j < |states|
    requires states[i].status == RunDone
    ensures states[j].status == RunDone
    ensures states[i].outputs.Keys == Ids(states[0].spec) && states[j].outputs == states[i].outputs
  {
    HistoryExtends(states, events, 0, i);
    HistoryExtends(states, events, i, j);
    HistoryInv(states, events, i);
    HistoryInv(states, events, j);
    DoneTablesEqual(states[i], states[j]);
  }

  lemma DoneTablesEqual(earlier: Run, later: Run)
    requires OutputsMatch(earlier) && NoLostWakeup(earlier) && OutputsMatch(later) && NoLostWakeup(later)
    requires Extends(earlier, later) && earlier.status == RunDone
    ensures later.outputs == earlier.outputs && earlier.outputs.Keys == Ids(earlier.spec)
  {
    DoneTable(earlier);
    DoneTable(later);
  }

  // ---- reads -------------------------------------------------------------------

  function FetchedOutputs(outputs: Outputs, ids: set<NodeId>): Outputs {
    map d | d in ids && d in outputs :: outputs[d]
  }

  /** resolveStepReads: only the outputs of the step's own dependencies are fetched. */
  function ResolveStepReads(run: Run, step: Step): Result<Record, EngineError> {
    var deps := set id | id in CollectStepReferenceIds(step);
    ResolveFields(step.inputs, run.input, FetchedOutputs(run.outputs, deps))
  }

  lemma ResolveAgrees(step: Step, input: Record, a: Outputs, b: Outputs)
    requires forall d :: d in CollectStepReferenceIds(step) ==> (d in a <==> d in b) && (d in a ==> a[d] == b[d])
    ensures ResolveFields(step.inputs, input, a) == ResolveFields(step.inputs, input, b)
  {
    forall id | id in CollectFieldIds(step.inputs)
      ensures (id in a <==> id in b) && (id in a ==> a[id] == b[id])
    {
      assert id in CollectStepReferenceIds(step);
    }
    ResolutionReadsReferencesOnly(step.inputs, input, a, b);
  }

  /** Fetching the dependencies' outputs only, a step's reads resolve exactly when each is a
      literal, a request parameter or names a recorded output, and hold the values recorded
      in the tables. */
  lemma StepReadsAreRecordedValues(run: Run, step: Step)
    ensures ResolveStepReads(run, step) == ResolveFields(step.inputs, run.input, run.outputs)
    ensures ResolveStepReads(run, step).Success? <==> AllResolvable(step.inputs, run.outputs)
    ensures ResolveStepReads(run, step).Success? ==>
              IsResolved(step.inputs, run.input, run.outputs, ResolveStepReads(run, step).value)
  {
    var deps := set id | id in CollectStepReferenceIds(step);
    ResolveAgrees(step, run.input, FetchedOutputs(run.outputs, deps), run.outputs);
    ResolvesIff(step.inputs, run.input, run.outputs);
  }

  /** A step that could be claimed has every dependency's output: its reads never raise
      the missing-output error, and fetching only the dependencies gives what the
      whole table would. */
  lemma ClaimedReadsResolve(run: Run, n: NodeId, step: Step)
    requires Inv(run) && n in run.executions && FindStep(run.spec.steps, n) == Some(step)
    requires run.executions[n].status in {Queued, Running, Done} || run.executions[n].attempts > 0
    ensures ResolveStepReads(run, step) == ResolveFields(step.inputs, run.input, run.outputs)
    ensures ResolveStepReads(run, step).Failure? ==> ResolveStepReads(run, step).error == BindingKindNotSupported
  {
    var deps := Deps(run.spec, n);
    assert forall d :: d in CollectStepReferenceIds(step) ==> d in deps;
    StepReadsAreRecordedValues(run, step);
    forall id | id in CollectFieldIds(step.inputs)
      ensures id in run.outputs
    {
      assert id in CollectStepReferenceIds(step);
    }
    RecordedReferencesResolve(step.inputs, run.input, run.outputs);
  }

  // ---- dependencies, from the document's own fields ----------------------------------

  lemma DepsAreWaitedFor(spec: Spec, k: nat, id: NodeId)
    requires Plain(spec) && k < |spec.steps|
    ensures id in Deps(spec, spec.steps[k].Id()) <==> WaitsFor(spec.steps[k].step, id)
  {
    FindStepAt(spec.steps, k);
    DependenciesAreWaitedFor(spec.steps[k].step, id);
  }

  /** A step that is queued, running or done, or was ever claimed, has an output recorded
      for everything it lists in dependsOn and everything it reads. */
  lemma StartedHasItsReads(states: seq<Run>, events: seq<Event>, i: nat, k: nat, id: NodeId)
    requires IsHistory(states, events) && i < |states| && k < |states[0].spec.steps|
    requires WaitsFor(states[0].spec.steps[k].step, id)
    ensures var n := states[0].spec.steps[k].Id();
            && n in states[i].executions
            && (states[i].executions[n].status in {Queued, Running, Done} || states[i].executions[n].attempts > 0 ==>
                  id in states[i].outputs)
  {
    HistoryInv(states, events, i);
    HistoryExtends(states, events, 0, i);
    DepsAreWaitedFor(states[0].spec, k, id);
    assert states[0].spec.steps[k].Id() in Ids(states[0].spec);
  }

  /** In a run that has not failed, a step is blocked exactly while something it waits for
      has no output. */
  lemma BlockedIffWaiting(states: seq<Run>, events: seq<Event>, i: nat, k: nat)
    requires IsHistory(states, events) && i < |states| && k < |states[0].spec.steps|
    requires states[i].status != RunFailed
    ensures var step, n := states[0].spec.steps[k].step, states[0].spec.steps[k].Id();
            && n in states[i].executions
            && (states[i].executions[n].status == Blocked <==>
                  exists id :: WaitsFor(step, id) && id !in states[i].outputs)
  {
    var run, n := states[i], states[0].spec.steps[k].Id();
    HistoryInv(states, events, i);
    HistoryExtends(states, events, 0, i);
    assert n in Ids(states[0].spec);
    if run.executions[n].status == Blocked {
      var id :| id in Deps(run.spec, n) && id !in run.outputs;
      DepsAreWaitedFor(run.spec, k, id);
    }
    if id :| WaitsFor(states[0].spec.steps[k].step, id) && id !in run.outputs {
      StartedHasItsReads(states, events, i, k, id);
      assert run.executions[n].status !in {Failed, Waiting};
    }
  }

  // ---- schedule independence ---------------------------------------------------

  /** A service whose output depends on the step and its resolved reads only. */
  type Service = (Step, Record) -> Record

  /** The recursive meaning of a document: evaluate the dependencies, resolve the
      step's reads against them, call the service. `depth` bounds the recursion; a node
      on a cycle or on a missing id has no value at any depth. */
  function Evaluate(spec: Spec, input: Record, service: Service, depth: nat, n: NodeId): Option<Record>
    decreases depth, 0
  {
    if depth == 0 then None
    else Answer(spec, input, service, n, EvaluateAll(spec, input, service, depth - 1, Deps(spec, n)))
  }

  function EvaluateAll(spec: Spec, input: Record, service: Service, depth: nat, nodes: set<NodeId>): Outputs
    decreases depth, 1
  {
    map d | d in nodes && Evaluate(spec, input, service, depth, d).Some? ::
      Evaluate(spec, input, service, depth, d).value
  }

  function Answer(spec: Spec, input: Record, service: Service, n: NodeId, outputs: Outputs): Option<Record> {
    match FindStep(spec.steps, n)
    case None => None
    case Some(step) =>
      if Deps(spec, n) <= outputs.Keys then
        match ResolveFields(step.inputs, input, outputs)
        case Failure(_) => None
        case Success(resolved) => Some(service(step, resolved))
      else None
  }

  lemma {:induction false} EvaluateMonotone(spec: Spec, input: Record, service: Service, a: nat, b: nat, n: NodeId)
    requires a <= b && Evaluate(spec, input, service, a, n).Some?
    ensures Evaluate(spec, input, service, b, n) == Evaluate(spec, input, service, a, n)
    decreases a
  {
    var deps := Deps(spec, n);
    var outsA := EvaluateAll(spec, input, service, a - 1, deps);
    var outsB := EvaluateAll(spec, input, service, b - 1, deps);
    assert Answer(spec, input, service, n, outsA).Some?;
    assert deps <= outsA.Keys;
    forall d | d in deps
      ensures Evaluate(spec, input, service, b - 1, d) == Evaluate(spec, input, service, a - 1, d)
    {
      assert d in outsA;
      EvaluateMonotone(spec, input, service, a - 1, b - 1, d);
    }
    assert outsA == outsB;
  }

  /** The node an event records an output for, if it does. */
  ghost predicate Completes(ev: Event, n: NodeId, output: Record) {
    (ev.ClaimComplete? || ev.Complete?) && ev.node == n && ev.output == output
  }

  /** The output recorded by step `i` is what the service answered to the reads resolved
      at some earlier committed state in which the node had been handed out. */
  ghost predicate AnsweredBy(states: seq<Run>, i: nat, n: NodeId, output: Record, service: Service)
    requires i < |states|
  {
    exists j :: 0 <= j <= i && Answered(states[j], n, output, service)
  }

  ghost predicate Answered(run: Run, n: NodeId, output: Record, service: Service) {
    && n in run.executions
    && run.executions[n].status in {Queued, Running}
    && var step := FindStep(run.spec.steps, n);
       step.Some? && var r := ResolveStepReads(run, step.value);
                     r.Success? && output == service(step.value, r.value)
  }

  ghost predicate Deterministic(states: seq<Run>, events: seq<Event>, service: Service) {
    |states| == |events| + 1 &&
    forall i, n, output :: 0 <= i < |events| && Completes(events[i], n, output) ==>
      AnsweredBy(states, i, n, output, service)
  }

  ghost predicate Evaluated(run: Run, service: Service) {
    forall n :: n in run.outputs ==>
      Evaluate(run.spec, run.input, service, |run.outputs|, n) == Some(run.outputs[n])
  }

  /** An answer computed from recorded outputs that are themselves evaluations. */
  lemma AnswerEvaluates(run: Run, n: NodeId, output: Record, service: Service, depth: nat)
    requires DependencySafe(run) && Answered(run, n, output, service)
    requires forall d :: d in run.outputs ==>
               Evaluate(run.spec, run.input, service, depth, d) == Some(run.outputs[d])
    ensures Evaluate(run.spec, run.input, service, depth + 1, n) == Some(output)
  {
    ReadyToAnswer(run, n);
    EvaluateAllAgrees(run, Deps(run.spec, n), service, depth);
    AnswerFromOutputs(run, n, output, service, map d | d in Deps(run.spec, n) :: run.outputs[d]);
  }

  /** A step's answer from the recorded outputs of its dependencies. */
  lemma AnswerFromOutputs(run: Run, n: NodeId, output: Record, service: Service, outs: Outputs)
    requires Answered(run, n, output, service) && Deps(run.spec, n) <= run.outputs.Keys
    requires outs == map d | d in Deps(run.spec, n) :: run.outputs[d]
    ensures Answer(run.spec, run.input, service, n, outs) == Some(output)
  {
    var step, deps := FindStep(run.spec.steps, n).value, Deps(run.spec, n);
    assert forall d :: d in CollectStepReferenceIds(step) ==> d in deps;
    ResolveAgrees(step, run.input, outs, map d | d in deps && d in run.outputs :: run.outputs[d]);
  }

  lemma ReadyToAnswer(run: Run, n: NodeId)
    requires DependencySafe(run) && n in run.executions && run.executions[n].status in {Queued, Running}
    ensures Deps(run.spec, n) <= run.outputs.Keys
  {
  }

  lemma EvaluateAllAgrees(run: Run, deps: set<NodeId>, service: Service, depth: nat)
    requires deps <= run.outputs.Keys
    requires forall d :: d in run.outputs ==>
               Evaluate(run.spec, run.input, service, depth, d) == Some(run.outputs[d])
    ensures EvaluateAll(run.spec, run.input, service, depth, deps) == map d | d in deps :: run.outputs[d]
  {
    assert forall d :: d in deps ==> d in run.outputs;
  }

  lemma ApplyOutputs(run: Run, ev: Event)
    requires Enabled(run, ev)
    ensures Apply(run, ev).outputs ==
              if ev.ClaimComplete? || ev.Complete? then InsertIfAbsent(run.outputs, ev.node, ev.output)
              else run.outputs
  {
  }

  lemma OutputsCard(run: Run, n: NodeId, output: Record)
    requires n !in run.outputs
    ensures |run.outputs[n := output]| == |run.outputs| + 1
  {
    assert run.outputs[n := output].Keys == run.outputs.Keys + {n};
  }

  /** One more recorded output, evaluated from outputs recorded before. */
  lemma EvaluatedOneMore(before: Run, after: Run, n: NodeId, output: Record, service: Service)
    requires Evaluated(before, service) && n !in before.outputs
    requires after.spec == before.spec && after.input == before.input && after.outputs == before.outputs[n := output]
    requires Evaluate(before.spec, before.input, service, |before.outputs| + 1, n) == Some(output)
    ensures Evaluated(after, service)
  {
    OutputsCard(before, n, output);
    forall m | m in before.outputs
      ensures Evaluate(after.spec, after.input, service, |after.outputs|, m) == Some(after.outputs[m])
    {
      EvaluateMonotone(before.spec, before.input, service, |before.outputs|, |after.outputs|, m);
    }
  }

  /** An answer computed at an earlier state still evaluates. */
  lemma EarlierAnswerEvaluates(earlier: Run, before: Run, n: NodeId, output: Record, service: Service)
    requires Inv(earlier) && Answered(earlier, n, output, service) && Extends(earlier, before)
    requires Evaluated(before, service)
    ensures Evaluate(before.spec, before.input, service, |before.outputs| + 1, n) == Some(output)
  {
    forall d | d in earlier.outputs
      ensures Evaluate(earlier.spec, earlier.input, service, |before.outputs|, d) == Some(earlier.outputs[d])
    {
      assert d in before.outputs;
    }
    AnswerEvaluates(earlier, n, output, service, |before.outputs|);
  }

  lemma EvaluatedSame(before: Run, after: Run, service: Service)
    requires Evaluated(before, service)
    requires after.spec == before.spec && after.input == before.input && after.outputs == before.outputs
    ensures Evaluated(after, service)
  {
  }

  lemma EvaluatedStep(states: seq<Run>, events: seq<Event>, service: Service, i: nat)
    requires IsHistory(states, events) && Deterministic(states, events, service) && i < |events|
    requires Evaluated(states[i], service)
    ensures Evaluated(states[i + 1], service)
  {
    var before, ev := states[i], events[i];
    HistoryStep(states, events, i);
    ApplyOutputs(before, ev);
    if (ev.ClaimComplete? || ev.Complete?) && ev.node !in before.outputs {
      assert Completes(ev, ev.node, ev.output);
      var j: nat :| j <= i && Answered(states[j], ev.node, ev.output, service);
      HistoryInv(states, events, j);
      HistoryExtends(states, events, j, i);
      EarlierAnswerEvaluates(states[j], before, ev.node, ev.output, service);
      EvaluatedOneMore(before, states[i + 1], ev.node, ev.output, service);
    } else {
      EvaluatedSame(before, states[i + 1], service);
    }
  }

  /** Every recorded output is the recursive evaluation of its node. */
  lemma {:induction false} OutputsAreEvaluations(states: seq<Run>, events: seq<Event>, service: Service, i: nat)
    requires IsHistory(states, events) && Deterministic(states, events, service) && i < |states|
    ensures Evaluated(states[i], service)
  {
    if i > 0 {
      OutputsAreEvaluations(states, events, service, i - 1);
      EvaluatedStep(states, events, service, i - 1);
    }
  }

  lemma {:induction false} IdsOfPrefix(spec: Spec, k: nat)
    requires Plain(spec) && k <= |spec.steps|
    ensures |set i | 0 <= i < k :: spec.steps[i].Id()| == k
  {
    if k > 0 {
      IdsOfPrefix(spec, k - 1);
      var prefix, last := set i | 0 <= i < k - 1 :: spec.steps[i].Id(), spec.steps[k - 1].Id();
      assert (set i | 0 <= i < k :: spec.steps[i].Id()) == prefix + {last};
      assert last !in prefix;
    }
  }

  lemma IdsCount(spec: Spec)
    requires Plain(spec)
    ensures |Ids(spec)| == |spec.steps|
  {
    IdsOfPrefix(spec, |spec.steps|);
    assert Ids(spec) == set i | 0 <= i < |spec.steps| :: spec.steps[i].Id();
  }

  lemma SubsetCard<T>(a: set<T>, b: set<T>)
    requires a <= b
    ensures |a| <= |b|
  {
    assert b == a + (b - a);
  }

  /** The output table of a done run is the evaluation of the whole document. */
  lemma DoneRunIsEvaluation(states: seq<Run>, events: seq<Event>, service: Service, i: nat)
    requires IsHistory(states, events) && Deterministic(states, events, service) && i < |states|
    requires states[i].status == RunDone
    ensures var spec := states[0].spec;
            && states[i].outputs.Keys == Ids(spec)
            && forall n :: n in Ids(spec) ==>
                 Evaluate(spec, states[0].input, service, |spec.steps|, n) == Some(states[i].outputs[n])
  {
    OutputsAreEvaluations(states, events, service, i);
    DoneIsForever(states, events, i, i);
    HistoryExtends(states, events, 0, i);
    IdsCount(states[0].spec);
    assert |states[i].outputs| == |states[i].outputs.Keys|;
  }

  /** getRunResult. */
  function RunResult(run: Run): Result<(RunStatus, Option<Record>), EngineError> {
    if run.status != RunDone then Success((run.status, None))
    else
      match ResolveFields(run.spec.outputs, run.input, run.outputs)
      case Success(record) => Success((RunDone, Some(record)))
      case Failure(e) => Failure(e)
  }

  /** The result of a document: its outputs resolved against the evaluation of its steps. */
  function Meaning(spec: Spec, input: Record, service: Service): Result<(RunStatus, Option<Record>), EngineError> {
    match ResolveFields(spec.outputs, input, EvaluateAll(spec, input, service, |spec.steps|, Ids(spec)))
    case Success(record) => Success((RunDone, Some(record)))
    case Failure(e) => Failure(e)
  }

  lemma DoneResultIsMeaning(states: seq<Run>, events: seq<Event>, service: Service, i: nat)
    requires IsHistory(states, events) && Deterministic(states, events, service) && i < |states|
    requires states[i].status == RunDone
    ensures RunResult(states[i]) == Meaning(states[0].spec, states[0].input, service)
  {
    var spec, input := states[0].spec, states[0].input;
    DoneRunIsEvaluation(states, events, service, i);
    HistoryExtends(states, events, 0, i);
    EvaluationTable(spec, input, service, states[i].outputs);
  }

  lemma EvaluationTable(spec: Spec, input: Record, service: Service, outputs: Outputs)
    requires outputs.Keys == Ids(spec)
    requires forall n :: n in Ids(spec) ==> Evaluate(spec, input, service, |spec.steps|, n) == Some(outputs[n])
    ensures EvaluateAll(spec, input, service, |spec.steps|, Ids(spec)) == outputs
  {
  }

  /** Two histories of the same document and input against the same services report
      the same result once they are done, whatever the claim order, the number of
      workers, the rolled-back or repeated attempts. */
  lemma ScheduleIndependence(
    states: seq<Run>, events: seq<Event>, i: nat,
    states': seq<Run>, events': seq<Event>, j: nat, service: Service)
    requires IsHistory(states, events) && Deterministic(states, events, service) && i < |states|
    requires IsHistory(states', events') && Deterministic(states', events', service) && j < |states'|
    requires states[0].spec == states'[0].spec && states[0].input == states'[0].input
    requires states[i].status == RunDone && states'[j].status == RunDone
    ensures states[i].outputs == states'[j].outputs
    ensures RunResult(states[i]) == RunResult(states'[j])
  {
    DoneRunIsEvaluation(states, events, service, i);
    DoneRunIsEvaluation(states', events', service, j);
    HistoryExtends(states, events, 0, i);
    HistoryExtends(states', events', 0, j);
    forall n | n in Ids(states[0].spec)
      ensures states[i].outputs[n] == states'[j].outputs[n]
    {
      assert Some(states[i].outputs[n]) == Some(states'[j].outputs[n]);
    }
  }
}
