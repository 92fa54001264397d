/**
  What the scope check of the compiler buys the engine: a compiled document of plain
  steps is one the engine accepts, all of whose dependencies are its own steps, and
  whose result can always be read once it is done.
 */
module AcceptedPlans {
  import opened WorkflowSpecs
  import opened Bindings
  import opened SemanticValidation
  import opened LexicalScope
  import opened Runs
  import opened RunHistories
  import opened RunProgress

  ghost predicate AllSteps(spec: Spec) {
    forall i :: 0 <= i < |spec.steps| ==> spec.steps[i].StepNode?
  }

  /** A compiled document of plain steps: validateStepReferences reported nothing. */
  ghost predicate Accepted(spec: Spec) {
    AllSteps(spec) && Errors(spec) == []
  }

  lemma StepsHaveJsonKeys(spec: Spec)
    requires AllSteps(spec)
    ensures JsonKeys(spec.steps)
  {
  }

  lemma AcceptedIsWellScoped(spec: Spec)
    requires Accepted(spec)
    ensures WellScoped(spec) && DistinctSiblings(spec.steps)
  {
    StepsHaveJsonKeys(spec);
    ScopeCheckIsExact(spec);
    UniqueIdsAreDistinct(spec.steps);
  }

  /** Every id the steps wait for, directly or in what they read, is one of the steps. */
  ghost predicate StepsNameSteps(spec: Spec)
    requires AllSteps(spec)
  {
    forall k, id :: 0 <= k < |spec.steps| && WaitsFor(spec.steps[k].step, id) ==> id in Ids(spec)
  }

  ghost predicate FieldsNameSteps(spec: Spec, fields: seq<Field>) {
    forall id :: FieldsMention(fields, id) ==> id in Ids(spec)
  }

  lemma FieldsInRootScope(spec: Spec, fields: seq<Field>)
    ensures FieldsInScope(fields, DirectIds(spec.steps)) <==> FieldsNameSteps(spec, fields)
  {
    assert DirectIds(spec.steps) == Ids(spec);
    forall k, id | 0 <= k < |fields| && Mentions(fields[k].binding, id)
      ensures FieldsMention(fields, id)
    {
    }
  }

  lemma NodesInRootScope(spec: Spec)
    requires AllSteps(spec)
    ensures NodesInScope(spec.steps, DirectIds(spec.steps)) <==> StepsNameSteps(spec)
  {
    var env := DirectIds(spec.steps);
    assert env == Ids(spec);
    forall k | 0 <= k < |spec.steps|
      ensures NodeInScope(spec.steps[k], env) <==> forall id :: WaitsFor(spec.steps[k].step, id) ==> id in env
    {
      var step := spec.steps[k].step;
      FieldsInRootScope(spec, step.inputs);
      assert forall id :: id in step.dependsOn ==> WaitsFor(step, id);
      assert forall id :: FieldsMention(step.inputs, id) ==> WaitsFor(step, id);
    }
  }

  /** assertPlainSteps accepts it, and every id a step waits for is one of its steps. */
  lemma AcceptedIsPlainAndClosed(spec: Spec)
    requires Accepted(spec)
    ensures Plain(spec) && StepsNameSteps(spec)
    ensures forall n :: n in Ids(spec) ==> Deps(spec, n) <= Ids(spec)
  {
    AcceptedIsWellScoped(spec);
    NodesInRootScope(spec);
    forall n, id | n in Ids(spec) && id in Deps(spec, n)
      ensures id in Ids(spec)
    {
      var k := PlainStep(spec, n);
      DepsAreWaitedFor(spec, k, id);
    }
  }

  /** For a document of plain steps the check is also necessary: what the engine would
      accept, with every dependency, output reference and session fallback naming its own
      steps. */
  lemma AcceptedIff(spec: Spec)
    requires AllSteps(spec)
    ensures Accepted(spec) <==>
            && Plain(spec) && StepsNameSteps(spec)
            && FieldsNameSteps(spec, spec.outputs) && FieldsNameSteps(spec, spec.fallbacks)
  {
    StepsHaveJsonKeys(spec);
    ScopeCheckIsExact(spec);
    NodesInRootScope(spec);
    FieldsInRootScope(spec, spec.outputs);
    FieldsInRootScope(spec, spec.fallbacks);
    if Accepted(spec) {
      AcceptedIsPlainAndClosed(spec);
    } else if Plain(spec) {
      PlainIdsAreUnique(spec.steps);
    }
  }

  lemma {:induction false} PlainIdsAreUnique(nodes: seq<Node>)
    requires forall i :: 0 <= i < |nodes| ==> nodes[i].StepNode?
    requires DistinctSiblings(nodes)
    ensures |AllIds(nodes)| == |nodes| && forall i :: 0 <= i < |nodes| ==> AllIds(nodes)[i] == nodes[i].Id()
    ensures NoDuplicates(AllIds(nodes))
  {
    if nodes != [] {
      PlainIdsAreUnique(nodes[1..]);
      assert AllIds(nodes) == [nodes[0].Id()] + AllIds(nodes[1..]);
    }
  }

  /** Every binding of the outputs is of a kind the engine resolves. */
  ghost predicate SupportedOutputs(spec: Spec) {
    forall i :: 0 <= i < |spec.outputs| ==>
      var b := spec.outputs[i].binding; b.Literal? || b.Request? || b.StepOutput?
  }

  /** getRunResult on a done run of a compiled document never misses an output: it can
      fail only on a binding kind the engine does not support. */
  lemma AcceptedResultIsComplete(states: seq<Run>, events: seq<Event>, i: nat)
    requires IsHistory(states, events) && i < |states|
    requires Accepted(states[0].spec)
    ensures RunResult(states[i]).Failure? ==> RunResult(states[i]).error == BindingKindNotSupported
    ensures SupportedOutputs(states[0].spec) ==> RunResult(states[i]).Success?
  {
    HistoryInv(states, events, i);
    HistoryExtends(states, events, 0, i);
    OutputsNameSteps(states[0].spec);
    if states[i].status == RunDone {
      DoneTable(states[i]);
      DoneOutputsResolve(states[i]);
    }
  }

  lemma OutputsNameSteps(spec: Spec)
    requires Accepted(spec)
    ensures forall id :: id in CollectFieldIds(spec.outputs) ==> id in Ids(spec)
  {
    AcceptedIff(spec);
    forall id | id in CollectFieldIds(spec.outputs)
      ensures id in Ids(spec)
    {
      FieldIdsAreMentions(spec.outputs, id);
    }
  }

  lemma DoneOutputsResolve(run: Run)
    requires run.outputs.Keys == Ids(run.spec)
    requires forall id :: id in CollectFieldIds(run.spec.outputs) ==> id in Ids(run.spec)
    ensures var r := ResolveFields(run.spec.outputs, run.input, run.outputs);
            && (r.Failure? ==> r.error == BindingKindNotSupported)
            && (SupportedOutputs(run.spec) ==> r.Success?)
  {
    RecordedReferencesResolve(run.spec.outputs, run.input, run.outputs);
    if SupportedOutputs(run.spec) {
      forall k | 0 <= k < |run.spec.outputs|
        ensures Resolvable(run.spec.outputs[k].binding, run.outputs)
      {
        FieldIdsContain(run.spec.outputs, k);
      }
      ResolvesIff(run.spec.outputs, run.input, run.outputs);
    }
  }

  /** The dependencies go down in some ranking. */
  ghost predicate Ranked(spec: Spec, rank: map<NodeId, nat>) {
    forall n, d :: n in Ids(spec) && d in Deps(spec, n) ==> n in rank && d in rank && rank[d] < rank[n]
  }

  lemma AcceptedIsClosedAcyclic(spec: Spec, rank: map<NodeId, nat>)
    requires Accepted(spec) && Ranked(spec, rank)
    ensures Plain(spec) && ClosedAcyclic(spec, rank)
  {
    AcceptedIsPlainAndClosed(spec);
  }

  /** An accepted acyclic document makes progress until it is done: while its run is
      running, some step is queued or running. */
  lemma AcceptedAcyclicHasWork(states: seq<Run>, events: seq<Event>, i: nat, rank: map<NodeId, nat>)
    requires IsHistory(states, events) && i < |states| && states[i].status == RunRunning
    requires Accepted(states[0].spec) && Ranked(states[0].spec, rank)
    ensures exists n :: n in states[i].executions && states[i].executions[n].status in {Queued, Running}
  {
    AcceptedIsClosedAcyclic(states[0].spec, rank);
    RunningRunHasWork(states, events, i, rank);
  }

  /** And from every reachable state in which it has not failed it can still be finished. */
  lemma AcceptedAcyclicCanFinish(states: seq<Run>, events: seq<Event>, rank: map<NodeId, nat>)
    requires IsHistory(states, events) && states[|events|].status != RunFailed
    requires Accepted(states[0].spec) && Ranked(states[0].spec, rank)
    ensures CanFinish(states, events)
  {
    AcceptedIsClosedAcyclic(states[0].spec, rank);
    AcyclicIsAllGrounded(states[0].spec, rank);
    AllGroundedIsUntrapped(states[0].spec);
    CanFinishIff(states, events);
  }
}
