/**
  One workflow run as its rows in the tables executions, workflow_runs,
  run_node_outputs and checkpoints, and what each committed transaction of the engine
  and the worker does to them.

  Every statement of these transactions is restricted to one run, and node ids are
  unique in a run, so a run's rows are keyed by node id.
 */
module Runs {
  import opened Wrappers
  import opened WorkflowSpecs
  import opened Bindings

  datatype Status = Blocked | Queued | Running | Waiting | Done | Failed

  datatype RunStatus = RunRunning | RunDone | RunFailed

  datatype Execution = Execution(status: Status, worker: string, leaseUntil: int, attempts: nat)

  datatype Run = Run(
    spec: Spec,
    input: Record,
    status: RunStatus,
    executions: map<NodeId, Execution>,
    outputs: Outputs,
    checkpoints: Outputs)

  /** Who claims, until when, at what time of the database clock. */
  datatype Lease = Lease(worker: string, leaseUntil: int, now: int)

  // ---- the document a run executes ------------------------------------------

  predicate Plain(spec: Spec) {
    && (forall i :: 0 <= i < |spec.steps| ==> spec.steps[i].StepNode?)
    && (forall i, j :: 0 <= i < j < |spec.steps| ==> spec.steps[i].Id() != spec.steps[j].Id())
  }

  function Ids(spec: Spec): set<NodeId> {
    set i | 0 <= i < |spec.steps| :: spec.steps[i].Id()
  }

  function IdsBelow(spec: Spec, k: nat): set<NodeId>
    requires k <= |spec.steps|
  {
    set i | 0 <= i < k :: spec.steps[i].Id()
  }

  /** findStepNode: the first step of that id. */
  function FindStep(nodes: seq<Node>, n: NodeId): Option<Step> {
    if nodes == [] then None
    else if nodes[0].StepNode? && nodes[0].step.id == n then Some(nodes[0].step)
    else FindStep(nodes[1..], n)
  }

  function Deps(spec: Spec, n: NodeId): set<NodeId> {
    match FindStep(spec.steps, n)
    case None => {}
    case Some(step) => set id | id in CollectStepReferenceIds(step)
  }

  lemma {:induction false} FindStepAt(nodes: seq<Node>, i: nat)
    requires i < |nodes|
    requires forall j :: 0 <= j < |nodes| ==> nodes[j].StepNode?
    requires forall j, k :: 0 <= j < k < |nodes| ==> nodes[j].Id() != nodes[k].Id()
    ensures FindStep(nodes, nodes[i].Id()) == Some(nodes[i].step)
  {
    if i > 0 {
      assert nodes[0].Id() != nodes[i].Id();
      FindStepAt(nodes[1..], i - 1);
    }
  }

  lemma PlainStep(spec: Spec, n: NodeId) returns (i: nat)
    requires Plain(spec) && n in Ids(spec)
    ensures i < |spec.steps| && spec.steps[i].StepNode? && spec.steps[i].Id() == n
    ensures FindStep(spec.steps, n) == Some(spec.steps[i].step)
  {
    i :| 0 <= i < |spec.steps| && spec.steps[i].Id() == n;
    FindStepAt(spec.steps, i);
  }

  // ---- statements on a run's rows -------------------------------------------

  predicate Ready(spec: Spec, n: NodeId, completed: set<NodeId>) {
    n !in completed && Deps(spec, n) <= completed
  }

  predicate Claimable(e: Execution, now: int) {
    e.status == Queued || (e.status == Running && e.leaseUntil < now)
  }

  function ClaimedRow(e: Execution, lease: Lease): Execution {
    Execution(Running, lease.worker, lease.leaseUntil, e.attempts + 1)
  }

  function ClaimRow(run: Run, n: NodeId, lease: Lease): Run
    requires n in run.executions
  {
    run.(executions := run.executions[n := ClaimedRow(run.executions[n], lease)])
  }

  function SetStatus(run: Run, n: NodeId, status: Status): Run
    requires n in run.executions
  {
    run.(executions := run.executions[n := run.executions[n].(status := status)])
  }

  /** ON CONFLICT DO NOTHING. */
  function InsertIfAbsent(table: Outputs, n: NodeId, output: Record): Outputs {
    if n in table then table else table[n := output]
  }

  /** One row under `UPDATE ... SET status = 'queued' WHERE ... AND status = 'blocked'`. */
  function PromotedRow(e: Execution): Execution {
    if e.status == Blocked then e.(status := Queued) else e
  }

  /** promoteReadyNodes, restricted to the nodes in `scope`. */
  function Promote(run: Run, completed: set<NodeId>, scope: set<NodeId>): Run {
    run.(executions := map n | n in run.executions ::
      if n in scope && Ready(run.spec, n, completed) then PromotedRow(run.executions[n]) else run.executions[n])
  }

  function WithRow(run: Run, m: NodeId, row: Execution): Run {
    run.(executions := run.executions[m := row])
  }

  predicate Unclaimed(status: Status) {
    status == Blocked || status == Queued || status == Waiting
  }

  /** failRemainingForRun, restricted to the nodes in `scope`. */
  function FailRemaining(run: Run, scope: set<NodeId>): Run {
    run.(executions := map n | n in run.executions ::
      if n in scope && Unclaimed(run.executions[n].status) then run.executions[n].(status := Failed)
      else run.executions[n])
  }

  /** `SET status = 'done' WHERE id = $1 AND status <> 'failed'`. */
  function MarkRunDone(run: Run): Run {
    if run.status == RunFailed then run else run.(status := RunDone)
  }

  // ---- whole transactions ---------------------------------------------------

  /** submitRun, on a document it accepts. */
  function Submitted(spec: Spec, input: Record): Run {
    Run(spec, input,
        if spec.steps == [] then RunDone else RunRunning,
        map n | n in Ids(spec) :: Execution(if Deps(spec, n) == {} then Queued else Blocked, "", 0, 0),
        map[], map[])
  }

  function Recorded(run: Run, n: NodeId, output: Record): Run
    requires n in run.executions
  {
    SetStatus(run, n, Done).(checkpoints := InsertIfAbsent(run.checkpoints, n, output),
                             outputs := InsertIfAbsent(run.outputs, n, output))
  }

  function Finish(run: Run): Run {
    if Ids(run.spec) <= run.outputs.Keys then MarkRunDone(run) else run
  }

  /** completeStep. */
  function CompleteStep(run: Run, n: NodeId, output: Record): Run
    requires n in run.executions
  {
    var recorded := Recorded(run, n, output);
    Finish(Promote(recorded, recorded.outputs.Keys, run.executions.Keys))
  }

  /** failRun. */
  function FailRun(run: Run, n: NodeId): Run
    requires n in run.executions
  {
    FailRemaining(SetStatus(run.(status := RunFailed), n, Failed), run.executions.Keys)
  }

  // ---- committed transactions as events --------------------------------------

  /**
    What a transaction that commits can do to one run. The worker claims in the same
    transaction as it completes or fails (`ClaimComplete`, `ClaimFail`); other callers
    commit a claim on its own and complete later, possibly long after the lease
    expired and another claim completed or failed the node (`ClaimOnly`, `Complete`).
   */
  datatype Event =
    | ClaimOnly(node: NodeId, lease: Lease)
    | ClaimComplete(node: NodeId, lease: Lease, output: Record)
    | ClaimFail(node: NodeId, lease: Lease)
    | Complete(node: NodeId, output: Record)

  predicate Enabled(run: Run, ev: Event) {
    && ev.node in run.executions
    && if ev.Complete? then run.executions[ev.node].attempts > 0
       else Claimable(run.executions[ev.node], ev.lease.now)
  }

  function Apply(run: Run, ev: Event): Run
    requires Enabled(run, ev)
  {
    match ev
    case ClaimOnly(n, lease) => ClaimRow(run, n, lease)
    case ClaimComplete(n, lease, output) => CompleteStep(ClaimRow(run, n, lease), n, output)
    case ClaimFail(n, lease) => FailRun(ClaimRow(run, n, lease), n)
    case Complete(n, output) => CompleteStep(run, n, output)
  }
}
