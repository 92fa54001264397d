/**
  Which steps can ever run, when a run can still move, and how many worker cycles it
  takes.
 */
module RunProgress {
  import opened Wrappers
  import opened WorkflowSpecs
  import opened Bindings
  import opened Runs
  import opened RunInvariants
  import opened RunHistories

  // ---- the graph -----------------------------------------------------------------

  /** Every chain of dependencies below `n` ends within `depth` steps, inside the document. */
  ghost predicate Grounded(spec: Spec, depth: nat, n: NodeId) {
    depth > 0 && n in Ids(spec) && forall d :: d in Deps(spec, n) ==> Grounded(spec, depth - 1, d)
  }

  /** A set of steps each of which waits for a missing id or for another of them: the
      steps on a dependency cycle, or downstream of a cycle or a dangling id. */
  ghost predicate IsTrap(spec: Spec, trap: set<NodeId>) {
    && trap <= Ids(spec)
    && forall n :: n in trap ==> exists d :: d in Deps(spec, n) && (d in trap || d !in Ids(spec))
  }

  ghost predicate Trapped(spec: Spec, n: NodeId) {
    exists trap :: IsTrap(spec, trap) && n in trap
  }

  ghost function GroundedSet(spec: Spec, depth: nat): set<NodeId> {
    set n | n in Ids(spec) && Grounded(spec, depth, n)
  }

  lemma {:induction false} GroundedMonotone(spec: Spec, depth: nat, n: NodeId)
    requires Grounded(spec, depth, n)
    ensures Grounded(spec, depth + 1, n)
  {
    forall d | d in Deps(spec, n)
      ensures Grounded(spec, depth, d)
    {
      GroundedMonotone(spec, depth - 1, d);
    }
  }

  lemma {:induction false} GroundedWithin(spec: Spec, a: nat, b: nat, n: NodeId)
    requires a <= b && Grounded(spec, a, n)
    ensures Grounded(spec, b, n)
    decreases b - a
  {
    if a < b {
      GroundedWithin(spec, a, b - 1, n);
      GroundedMonotone(spec, b - 1, n);
    }
  }

  lemma GroundedSetStays(spec: Spec, k: nat)
    requires GroundedSet(spec, k) == GroundedSet(spec, k + 1)
    ensures GroundedSet(spec, k + 1) == GroundedSet(spec, k + 2)
  {
    var upper, lower := GroundedSet(spec, k + 2), GroundedSet(spec, k + 1);
    forall n | n in upper
      ensures n in lower
    {
      forall d | d in Deps(spec, n)
        ensures Grounded(spec, k, d)
      {
        assert Grounded(spec, k + 1, d) && d in lower;
      }
    }
    forall n | n in lower
      ensures n in upper
    {
      GroundedMonotone(spec, k + 1, n);
    }
  }

  /** Either the grounded set still grows at every depth up to `k`, or it has stopped. */
  lemma {:induction false} GroundedSetGrows(spec: Spec, k: nat)
    ensures |GroundedSet(spec, k)| >= k || GroundedSet(spec, k) == GroundedSet(spec, k + 1)
  {
    if k > 0 {
      GroundedSetGrows(spec, k - 1);
      if GroundedSet(spec, k - 1) == GroundedSet(spec, k) {
        GroundedSetStays(spec, k - 1);
      } else {
        forall n | n in GroundedSet(spec, k - 1)
          ensures n in GroundedSet(spec, k)
        {
          GroundedMonotone(spec, k - 1, n);
        }
        var added := GroundedSet(spec, k) - GroundedSet(spec, k - 1);
        assert GroundedSet(spec, k) == GroundedSet(spec, k - 1) + added;
        assert added != {};
      }
    }
  }

  lemma GroundedSetStops(spec: Spec)
    requires Plain(spec)
    ensures GroundedSet(spec, |spec.steps|) == GroundedSet(spec, |spec.steps| + 1)
  {
    var k := |spec.steps|;
    GroundedSetGrows(spec, k);
    IdsCount(spec);
    if |GroundedSet(spec, k)| >= k {
      var rest := Ids(spec) - GroundedSet(spec, k);
      assert Ids(spec) == GroundedSet(spec, k) + rest;
      assert rest == {};
      forall n | n in GroundedSet(spec, k)
        ensures n in GroundedSet(spec, k + 1)
      {
        GroundedMonotone(spec, k, n);
      }
    }
  }

  lemma {:induction false} TrapIsNotGrounded(spec: Spec, trap: set<NodeId>, depth: nat, n: NodeId)
    requires IsTrap(spec, trap) && n in trap
    ensures !Grounded(spec, depth, n)
  {
    if depth > 0 {
      var d :| d in Deps(spec, n) && (d in trap || d !in Ids(spec));
      if d in trap {
        TrapIsNotGrounded(spec, trap, depth - 1, d);
      }
    }
  }

  /** The two readings of "can run" agree: a step is grounded exactly when it is in no
      trap. */
  lemma GroundedIffNotTrapped(spec: Spec, n: NodeId)
    requires Plain(spec) && n in Ids(spec)
    ensures Grounded(spec, |spec.steps|, n) <==> !Trapped(spec, n)
  {
    var k := |spec.steps|;
    if Grounded(spec, k, n) && Trapped(spec, n) {
      var trap :| IsTrap(spec, trap) && n in trap;
      TrapIsNotGrounded(spec, trap, k, n);
    }
    if !Grounded(spec, k, n) {
      GroundedSetStops(spec);
      var trap := Ids(spec) - GroundedSet(spec, k);
      forall m | m in trap
        ensures exists d :: d in Deps(spec, m) && (d in trap || d !in Ids(spec))
      {
        assert m !in GroundedSet(spec, k + 1);
        var d :| d in Deps(spec, m) && !Grounded(spec, k, d);
        assert d in trap || d !in Ids(spec);
      }
      assert IsTrap(spec, trap);
    }
  }

  /** A closed document whose dependencies go down in some ranking. */
  ghost predicate ClosedAcyclic(spec: Spec, rank: map<NodeId, nat>) {
    forall n :: n in Ids(spec) ==> RanksDown(spec, rank, n)
  }

  ghost predicate RanksDown(spec: Spec, rank: map<NodeId, nat>, n: NodeId) {
    forall d :: d in Deps(spec, n) ==> d in Ids(spec) && n in rank && d in rank && rank[d] < rank[n]
  }

  lemma TrapStep(spec: Spec, rank: map<NodeId, nat>, trap: set<NodeId>, n: NodeId) returns (d: NodeId)
    requires ClosedAcyclic(spec, rank) && IsTrap(spec, trap) && n in trap
    ensures d in trap && n in rank && d in rank && rank[d] < rank[n]
  {
    assert RanksDown(spec, rank, n);
    d :| d in Deps(spec, n) && (d in trap || d !in Ids(spec));
  }

  lemma {:induction false} AcyclicHasNoTrap(spec: Spec, rank: map<NodeId, nat>, trap: set<NodeId>, n: NodeId)
    requires ClosedAcyclic(spec, rank) && IsTrap(spec, trap) && n in trap
    ensures false
    decreases if n in rank then rank[n] else 0
  {
    var d := TrapStep(spec, rank, trap, n);
    AcyclicHasNoTrap(spec, rank, trap, d);
  }

  lemma AcyclicIsGrounded(spec: Spec, rank: map<NodeId, nat>, n: NodeId)
    requires Plain(spec) && ClosedAcyclic(spec, rank) && n in Ids(spec)
    ensures Grounded(spec, |spec.steps|, n)
  {
    GroundedIffNotTrapped(spec, n);
    if Trapped(spec, n) {
      var trap :| IsTrap(spec, trap) && n in trap;
      AcyclicHasNoTrap(spec, rank, trap, n);
    }
  }

  // ---- what a document means ----------------------------------------------------------

  /** The step reads only what the engine can resolve once its dependencies are there. */
  ghost predicate SupportedReads(spec: Spec) {
    forall k, f :: 0 <= k < |spec.steps| && spec.steps[k].StepNode? && 0 <= f < |spec.steps[k].step.inputs| ==>
      var b := spec.steps[k].step.inputs[f].binding; b.Literal? || b.Request? || b.StepOutput?
  }

  lemma AnswerIff(spec: Spec, input: Record, service: Service, k: nat, outputs: Outputs)
    requires Plain(spec) && SupportedReads(spec) && k < |spec.steps|
    ensures Answer(spec, input, service, spec.steps[k].Id(), outputs).Some? <==>
            Deps(spec, spec.steps[k].Id()) <= outputs.Keys
  {
    var step, n := spec.steps[k].step, spec.steps[k].Id();
    FindStepAt(spec.steps, k);
    ResolvesIff(step.inputs, input, outputs);
    if Deps(spec, n) <= outputs.Keys {
      forall f | 0 <= f < |step.inputs|
        ensures Resolvable(step.inputs[f].binding, outputs)
      {
        if step.inputs[f].binding.StepOutput? {
          assert WaitsFor(step, step.inputs[f].binding.id);
          DepsAreWaitedFor(spec, k, step.inputs[f].binding.id);
        }
      }
    }
  }

  /** The recursive evaluation gives a step a value exactly when its dependency chains end
      inside the document: never on or downstream of a cycle or a missing id, always
      elsewhere. */
  lemma {:induction false} EvaluatesIffGrounded(spec: Spec, input: Record, service: Service, depth: nat, n: NodeId)
    requires Plain(spec) && SupportedReads(spec)
    ensures Evaluate(spec, input, service, depth, n).Some? <==> Grounded(spec, depth, n)
    decreases depth
  {
    if depth > 0 {
      var outputs := EvaluateAll(spec, input, service, depth - 1, Deps(spec, n));
      forall d | d in Deps(spec, n)
        ensures Evaluate(spec, input, service, depth - 1, d).Some? <==> Grounded(spec, depth - 1, d)
      {
        EvaluatesIffGrounded(spec, input, service, depth - 1, d);
      }
      assert Deps(spec, n) <= outputs.Keys <==> forall d :: d in Deps(spec, n) ==> Grounded(spec, depth - 1, d);
      if n in Ids(spec) {
        var k := PlainStep(spec, n);
        AnswerIff(spec, input, service, k, outputs);
      } else {
        NoSuchStep(spec.steps, n);
      }
    }
  }

  lemma {:induction false} NoSuchStep(nodes: seq<Node>, n: NodeId)
    requires forall i :: 0 <= i < |nodes| ==> nodes[i].Id() != n
    ensures FindStep(nodes, n) == None
  {
    if nodes != [] {
      assert nodes[0].Id() != n;
      NoSuchStep(nodes[1..], n);
    }
  }

  // ---- progress --------------------------------------------------------------------

  ghost predicate Idle(run: Run) {
    forall n :: n in run.executions ==> run.executions[n].status !in {Queued, Running}
  }

  lemma {:induction false} GroundedIsDoneWhenIdle(run: Run, depth: nat, n: NodeId)
    requires Inv(run) && run.status != RunFailed && Idle(run) && Grounded(run.spec, depth, n)
    ensures n in run.outputs
  {
    forall d | d in Deps(run.spec, n)
      ensures d in run.outputs
    {
      GroundedIsDoneWhenIdle(run, depth - 1, d);
    }
    assert run.executions[n].status !in {Blocked, Failed, Waiting};
  }

  ghost predicate AllGrounded(spec: Spec) {
    forall n :: n in Ids(spec) ==> Grounded(spec, |spec.steps|, n)
  }

  lemma GroundedRunHasWork(run: Run)
    requires Inv(run) && run.status == RunRunning && AllGrounded(run.spec)
    ensures !Idle(run)
  {
    if Idle(run) {
      forall n | n in Ids(run.spec)
        ensures n in run.outputs
      {
        GroundedIsDoneWhenIdle(run, |run.spec.steps|, n);
      }
      assert false;
    }
  }

  lemma AcyclicIsAllGrounded(spec: Spec, rank: map<NodeId, nat>)
    requires Plain(spec) && ClosedAcyclic(spec, rank)
    ensures AllGrounded(spec)
  {
    forall n | n in Ids(spec)
      ensures Grounded(spec, |spec.steps|, n)
    {
      AcyclicIsGrounded(spec, rank, n);
    }
  }

  lemma AllGroundedIsUntrapped(spec: Spec)
    requires Plain(spec)
    ensures AllGrounded(spec) <==> forall n :: n in Ids(spec) ==> !Trapped(spec, n)
  {
    forall n | n in Ids(spec)
      ensures Grounded(spec, |spec.steps|, n) <==> !Trapped(spec, n)
    {
      GroundedIffNotTrapped(spec, n);
    }
  }

  /** While a run of a closed acyclic document is running, some execution is queued or
      running. */
  lemma RunningRunHasWork(states: seq<Run>, events: seq<Event>, i: nat, rank: map<NodeId, nat>)
    requires IsHistory(states, events) && i < |states|
    requires ClosedAcyclic(states[0].spec, rank) && states[i].status == RunRunning
    ensures exists n :: n in states[i].executions && states[i].executions[n].status in {Queued, Running}
  {
    HistoryInv(states, events, i);
    HistoryExtends(states, events, 0, i);
    AcyclicIsAllGrounded(states[0].spec, rank);
    GroundedRunHasWork(states[i]);
  }

  /** Such a run never hangs: some execution can be claimed at every time from some moment
      on, even if every worker that ever claimed anything has died. */
  lemma RunningRunCanBeClaimed(states: seq<Run>, events: seq<Event>, i: nat, rank: map<NodeId, nat>)
    returns (n: NodeId, t: int)
    requires IsHistory(states, events) && i < |states|
    requires ClosedAcyclic(states[0].spec, rank) && states[i].status == RunRunning
    ensures forall lease: Lease :: lease.now > t ==> Enabled(states[i], ClaimOnly(n, lease))
  {
    RunningRunHasWork(states, events, i, rank);
    n :| n in states[i].executions && states[i].executions[n].status in {Queued, Running};
    t := states[i].executions[n].leaseUntil;
  }

  /** An idle, unfailed run of any document has completed exactly the grounded steps. */
  lemma IdleRunCompletedGrounded(states: seq<Run>, events: seq<Event>, i: nat)
    requires IsHistory(states, events) && i < |states|
    requires states[i].status != RunFailed && Idle(states[i])
    ensures states[i].outputs.Keys == GroundedSet(states[0].spec, |states[0].spec.steps|)
  {
    HistoryInv(states, events, i);
    HistoryExtends(states, events, 0, i);
    var run := states[i];
    forall n | n in GroundedSet(run.spec, |run.spec.steps|)
      ensures n in run.outputs
    {
      GroundedIsDoneWhenIdle(run, |run.spec.steps|, n);
    }
    forall n | n in run.outputs
      ensures n in GroundedSet(run.spec, |run.spec.steps|)
    {
      OnlyGroundedStepsRun(states, events, i, n);
    }
  }

  ghost predicate RecordedAreGrounded(run: Run) {
    forall n :: n in run.outputs ==> Grounded(run.spec, |run.outputs|, n)
  }

  lemma ReadyIsGrounded(run: Run, n: NodeId)
    requires RecordedAreGrounded(run) && n in Ids(run.spec) && Deps(run.spec, n) <= run.outputs.Keys
    ensures Grounded(run.spec, |run.outputs| + 1, n)
  {
    assert forall d :: d in Deps(run.spec, n) ==> d in run.outputs;
  }

  /** One more recorded output, of a node whose dependencies were all recorded. */
  lemma RecordedStayGrounded(before: Run, after: Run, n: NodeId, output: Record)
    requires RecordedAreGrounded(before) && n !in before.outputs
    requires n in Ids(before.spec) && Deps(before.spec, n) <= before.outputs.Keys
    requires after.spec == before.spec && after.outputs == before.outputs[n := output]
    ensures RecordedAreGrounded(after)
  {
    OutputsCard(before, n, output);
    ReadyIsGrounded(before, n);
    forall m | m in before.outputs
      ensures Grounded(after.spec, |after.outputs|, m)
    {
      GroundedMonotone(before.spec, |before.outputs|, m);
    }
  }

  /** The node of an event has the outputs of its dependencies. */
  lemma EventNodeIsReady(run: Run, ev: Event)
    requires Inv(run) && Enabled(run, ev)
    ensures ev.node in Ids(run.spec) && Deps(run.spec, ev.node) <= run.outputs.Keys
  {
  }

  lemma GroundedStep(run: Run, ev: Event)
    requires Inv(run) && Enabled(run, ev) && RecordedAreGrounded(run)
    ensures RecordedAreGrounded(Apply(run, ev))
  {
    ApplyOutputs(run, ev);
    ApplySpec(run, ev);
    if (ev.ClaimComplete? || ev.Complete?) && ev.node !in run.outputs {
      EventNodeIsReady(run, ev);
      RecordedStayGrounded(run, Apply(run, ev), ev.node, ev.output);
    }
  }

  lemma ApplySpec(run: Run, ev: Event)
    requires Enabled(run, ev)
    ensures Apply(run, ev).spec == run.spec
  {
  }

  lemma {:induction false} OutputsAreGrounded(states: seq<Run>, events: seq<Event>, i: nat)
    requires IsHistory(states, events) && i < |states|
    ensures RecordedAreGrounded(states[i])
  {
    if i > 0 {
      OutputsAreGrounded(states, events, i - 1);
      GroundedNext(states, events, i - 1);
    }
  }

  lemma GroundedNext(states: seq<Run>, events: seq<Event>, i: nat)
    requires IsHistory(states, events) && i < |events| && RecordedAreGrounded(states[i])
    ensures RecordedAreGrounded(states[i + 1])
  {
    HistoryInv(states, events, i);
    assert Enabled(states[i], events[i]);
    GroundedStep(states[i], events[i]);
  }

  /** A row that was handed out, or could be, is grounded within the size of the document. */
  lemma RecordedIsGrounded(run: Run, n: NodeId)
    requires Plain(run.spec) && RecordedAreGrounded(run) && n in run.outputs && run.outputs.Keys <= Ids(run.spec)
    ensures Grounded(run.spec, |run.spec.steps|, n)
  {
    IdsCount(run.spec);
    SubsetCard(run.outputs.Keys, Ids(run.spec));
    GroundedWithin(run.spec, |run.outputs|, |run.spec.steps|, n);
  }

  lemma UnrecordedIsGrounded(run: Run, n: NodeId)
    requires Plain(run.spec) && RecordedAreGrounded(run) && n !in run.outputs && run.outputs.Keys <= Ids(run.spec)
    requires n in Ids(run.spec) && Deps(run.spec, n) <= run.outputs.Keys
    ensures Grounded(run.spec, |run.spec.steps|, n)
  {
    IdsCount(run.spec);
    SubsetCard(run.outputs.Keys + {n}, Ids(run.spec));
    assert |run.outputs.Keys + {n}| == |run.outputs.Keys| + 1;
    ReadyIsGrounded(run, n);
    GroundedWithin(run.spec, |run.outputs| + 1, |run.spec.steps|, n);
  }

  lemma StartedIsGrounded(run: Run, n: NodeId)
    requires Plain(run.spec) && OutputsMatch(run) && DependencySafe(run) && RecordedAreGrounded(run)
    requires n in run.executions
    requires run.executions[n].status in {Queued, Running, Done} || run.executions[n].attempts > 0
    ensures Grounded(run.spec, |run.spec.steps|, n)
  {
    if n in run.outputs {
      RecordedIsGrounded(run, n);
    } else {
      UnrecordedIsGrounded(run, n);
    }
  }

  /** A step that is ever queued, running, done or claimed is grounded; one in a trap is
      blocked until its run fails. */
  lemma OnlyGroundedStepsRun(states: seq<Run>, events: seq<Event>, i: nat, n: NodeId)
    requires IsHistory(states, events) && i < |states| && n in states[i].executions
    requires states[i].executions[n].status in {Queued, Running, Done} || states[i].executions[n].attempts > 0
    ensures Grounded(states[0].spec, |states[0].spec.steps|, n)
    ensures !Trapped(states[0].spec, n)
  {
    HistoryInv(states, events, i);
    HistoryExtends(states, events, 0, i);
    OutputsAreGrounded(states, events, i);
    StartedIsGrounded(states[i], n);
    GroundedIffNotTrapped(states[i].spec, n);
  }

  /** A document with a trapped step is never done. */
  lemma TrappedRunIsNeverDone(states: seq<Run>, events: seq<Event>, i: nat, n: NodeId)
    requires IsHistory(states, events) && i < |states|
    requires n in Ids(states[0].spec) && Trapped(states[0].spec, n)
    ensures states[i].status != RunDone
    ensures n in states[i].executions
    ensures states[i].executions[n].status in {Blocked, Failed} && states[i].executions[n].attempts == 0
  {
    HistoryInv(states, events, i);
    HistoryExtends(states, events, 0, i);
    if states[i].executions[n].status in {Queued, Running, Done} || states[i].executions[n].attempts > 0 {
      OnlyGroundedStepsRun(states, events, i, n);
    }
  }

  // ---- the measure of the worker loop ------------------------------------------------

  ghost function Unfinished(run: Run): set<NodeId> {
    set n | n in run.executions && run.executions[n].status !in {Done, Failed}
  }

  ghost predicate WorkerEvent(ev: Event) {
    ev.ClaimComplete? || ev.ClaimFail?
  }

  lemma CompletedFromUnfinished(run: Run, n: NodeId, output: Record, r: Run)
    requires n in run.executions && CompletedFrom(run, n, output, r)
    ensures Unfinished(r) == Unfinished(run) - {n}
  {
  }

  lemma FailedFromUnfinished(run: Run, n: NodeId, r: Run)
    requires n in run.executions && FailedFrom(run, n, r)
    ensures Unfinished(r) <= Unfinished(run) - {n}
  {
  }

  /** A worker's transaction finishes its node; one that completes finishes no other. */
  lemma WorkerEventDecreases(run: Run, ev: Event)
    requires Enabled(run, ev) && WorkerEvent(ev)
    ensures ev.ClaimComplete? ==> Unfinished(Apply(run, ev)) == Unfinished(run) - {ev.node}
    ensures Unfinished(Apply(run, ev)) <= Unfinished(run) - {ev.node}
    ensures ev.node in Unfinished(run)
  {
    var n, claimed := ev.node, ClaimRow(run, ev.node, ev.lease);
    assert Unfinished(claimed) == Unfinished(run);
    if ev.ClaimComplete? {
      CompleteStepRows(claimed, n, ev.output);
      CompletedFromUnfinished(claimed, n, ev.output, Apply(run, ev));
    } else {
      FailRunRows(claimed, n);
      FailedFromUnfinished(claimed, n, Apply(run, ev));
    }
  }

  lemma SubmittedUnfinished(spec: Spec, input: Record)
    ensures Unfinished(Submitted(spec, input)) == Ids(spec)
  {
  }

  lemma DoneIsFinished(run: Run)
    requires OutputsMatch(run) && NoLostWakeup(run) && run.status == RunDone
    ensures Unfinished(run) == {}
  {
    DoneTable(run);
  }

  /** One true worker cycle. */
  lemma WorkerCycle(run: Run, ev: Event)
    requires Enabled(run, ev) && WorkerEvent(ev)
    ensures |Unfinished(Apply(run, ev))| < |Unfinished(run)|
    ensures ev.ClaimComplete? ==> |Unfinished(Apply(run, ev))| == |Unfinished(run)| - 1
  {
    var before, after := Unfinished(run), Unfinished(Apply(run, ev));
    WorkerEventDecreases(run, ev);
    SubsetCard(after, before - {ev.node});
  }

  // ---- which runs can finish -----------------------------------------------------------

  /** The second history continues the first one and ends with the run done. */
  ghost predicate Finishes(states: seq<Run>, events: seq<Event>, states': seq<Run>, events': seq<Event>) {
    && IsHistory(states', events') && states <= states' && events <= events'
    && states'[|events'|].status == RunDone
  }

  ghost predicate CanFinish(states: seq<Run>, events: seq<Event>) {
    exists states', events' :: Finishes(states, events, states', events')
  }

  /** Taking over whatever is queued or running, one row after another, finishes the run. */
  lemma {:induction false} FinishRun(states: seq<Run>, events: seq<Event>)
    returns (states': seq<Run>, events': seq<Event>)
    requires IsHistory(states, events) && states[|events|].status != RunFailed && AllGrounded(states[0].spec)
    ensures Finishes(states, events, states', events')
    decreases |Unfinished(states[|events|])|
  {
    if states[|events|].status == RunDone {
      states', events' := states, events;
    } else {
      var ev, next := FinishStep(states, events);
      states', events' := FinishRun(states + [next], events + [ev]);
    }
  }

  lemma FinishStep(states: seq<Run>, events: seq<Event>) returns (ev: Event, next: Run)
    requires IsHistory(states, events) && states[|events|].status == RunRunning && AllGrounded(states[0].spec)
    ensures IsHistory(states + [next], events + [ev])
    ensures next.status != RunFailed && |Unfinished(next)| < |Unfinished(states[|events|])|
  {
    HistoryInv(states, events, |events|);
    HistoryExtends(states, events, 0, |events|);
    ev := NextCompletion(states[|events|]);
    next := Apply(states[|events|], ev);
    WorkerCycle(states[|events|], ev);
    ExtendHistory(states, events, ev, next);
  }

  lemma NextCompletion(run: Run) returns (ev: Event)
    requires Inv(run) && run.status == RunRunning && AllGrounded(run.spec)
    ensures ev.ClaimComplete? && Enabled(run, ev) && Apply(run, ev).status != RunFailed
  {
    GroundedRunHasWork(run);
    var n :| n in run.executions && run.executions[n].status in {Queued, Running};
    var lease := Lease("", 0, run.executions[n].leaseUntil + 1);
    ev := ClaimComplete(n, lease, map[]);
    CompleteStepRows(ClaimRow(run, n, lease), n, map[]);
  }

  /** From any reachable state a run can still be finished exactly when it has not failed and
      none of its document's steps is on or downstream of a cycle or a missing id. */
  lemma CanFinishIff(states: seq<Run>, events: seq<Event>)
    requires IsHistory(states, events)
    ensures CanFinish(states, events) <==>
            states[|events|].status != RunFailed && forall n :: n in Ids(states[0].spec) ==> !Trapped(states[0].spec, n)
  {
    var spec := states[0].spec;
    AllGroundedIsUntrapped(spec);
    if states[|events|].status != RunFailed && AllGrounded(spec) {
      var states', events' := FinishRun(states, events);
    }
    if CanFinish(states, events) {
      var states', events' :| Finishes(states, events, states', events');
      FinishedIsGrounded(states, events, states', events');
    }
  }

  lemma FinishedIsGrounded(states: seq<Run>, events: seq<Event>, states': seq<Run>, events': seq<Event>)
    requires IsHistory(states, events) && Finishes(states, events, states', events')
    ensures states[|events|].status != RunFailed && AllGrounded(states[0].spec)
  {
    assert states'[0] == states[0] && states'[|events|] == states[|events|];
    if states[|events|].status == RunFailed {
      FailureIsForever(states', events', |events|, |events'|);
    }
    DoneIsForever(states', events', |events'|, |events'|);
    HistoryInv(states', events', |events'|);
    forall n | n in Ids(states[0].spec)
      ensures Grounded(states[0].spec, |states[0].spec.steps|, n)
    {
      OnlyGroundedStepsRun(states', events', |events'|, n);
    }
  }

  ghost predicate NoneFailed(events: seq<Event>) {
    forall k :: 0 <= k < |events| ==> events[k].ClaimComplete?
  }

  lemma {:induction false} WorkerCycles(states: seq<Run>, events: seq<Event>)
    requires |states| == |events| + 1
    requires forall i {:trigger events[i]} :: 0 <= i < |events| ==>
               Enabled(states[i], events[i]) && states[i + 1] == Apply(states[i], events[i])
    requires forall k :: 0 <= k < |events| ==> WorkerEvent(events[k])
    ensures |events| + |Unfinished(states[|events|])| <= |Unfinished(states[0])|
    ensures NoneFailed(events) ==> |events| + |Unfinished(states[|events|])| == |Unfinished(states[0])|
  {
    var i := |events|;
    if i > 0 {
      WorkerCycles(states[..i], events[..i - 1]);
      WorkerCycle(states[i - 1], events[i - 1]);
      assert NoneFailed(events) ==> NoneFailed(events[..i - 1]);
    }
  }

  /** A run of n steps takes at most n true worker cycles, and exactly n once it is done
      and no cycle failed it. */
  lemma WorkerCyclesBounded(states: seq<Run>, events: seq<Event>)
    requires IsHistory(states, events)
    requires forall k :: 0 <= k < |events| ==> WorkerEvent(events[k])
    ensures |events| + |Unfinished(states[|events|])| <= |states[0].spec.steps|
    ensures NoneFailed(events) && states[|events|].status == RunDone ==> |events| == |states[0].spec.steps|
  {
    WorkerCycles(states, events);
    IdsCount(states[0].spec);
    SubmittedUnfinished(states[0].spec, states[0].input);
    HistoryInv(states, events, |events|);
    if states[|events|].status == RunDone {
      DoneIsFinished(states[|events|]);
    }
  }
}
