/**
  The engine's and the worker's transactions statement by statement, interleaved.

  An open transaction keeps its own pending writes. A statement sees the committed rows
  overlaid with them (READ COMMITTED); a row it writes, or takes FOR UPDATE, stays
  locked until it commits or aborts, and any transaction may abort at any point. A row
  lock is a key of `rows`; the run row is locked from the phase after `Claimed` on.

  The main result is a refinement: whatever the interleaving, the committed rows change
  only by the whole transactions of module Runs, so everything proved about histories
  holds of every committed state.
 */
module Interleaving {
  import opened Wrappers
  import opened WorkflowSpecs
  import opened Bindings
  import opened Runs
  import opened RunInvariants

  datatype Phase =
    | Claimed                                           // claim written, dispatch under way
    | RunLocked                                         // completeStep, statement by statement
    | CheckpointWritten
    | RowMarkedDone
    | OutputRecorded
    | Promoting(next: nat, completed: set<NodeId>)
    | Completed
    | RunMarkedFailed                                   // failRun, statement by statement
    | Sweeping(visited: set<NodeId>)

  /** `lease` is None for a caller whose claim was committed earlier. */
  datatype Txn = Txn(
    node: NodeId,
    lease: Option<Lease>,
    output: Record,
    phase: Phase,
    rows: map<NodeId, Execution>,
    outputs: Outputs,
    checkpoints: Outputs,
    status: Option<RunStatus>)

  datatype System = System(committed: Run, open: map<nat, Txn>)

  /** The run's rows as a transaction reads them. */
  function View(committed: Run, t: Txn): Run {
    committed.(
      executions := committed.executions + t.rows,
      outputs := committed.outputs + t.outputs,
      checkpoints := committed.checkpoints + t.checkpoints,
      status := if t.status.Some? then t.status.value else committed.status)
  }

  predicate HoldsRun(t: Txn) {
    !t.phase.Claimed?
  }

  ghost predicate RowFree(s: System, tid: nat, n: NodeId) {
    forall u :: u in s.open && u != tid ==> n !in s.open[u].rows
  }

  ghost predicate RunFree(s: System) {
    forall u :: u in s.open ==> !HoldsRun(s.open[u])
  }

  // ---- statements -------------------------------------------------------------------

  /** The statements after the claim: completeStep's, then failRun's. */
  datatype Statement =
    | LockRun(output: Record)
    | WriteCheckpoint
    | MarkRowDone
    | RecordOutput
    | ReadCompleted
    | PromoteNext
    | CheckRunDone
    | MarkRunFailed
    | MarkRowFailed
    | SweepRow(node: NodeId)

  /** `BeginLater` is completeStep called in a transaction of its own, by a caller whose
      claim was committed earlier. */
  datatype Action =
    | BeginClaim(tid: nat, node: NodeId, lease: Lease)
    | BeginLater(tid: nat, node: NodeId, output: Record)
    | Issue(tid: nat, statement: Statement)
    | Commit(tid: nat)
    | Abort(tid: nat)

  function NextNode(spec: Spec, k: nat): NodeId
    requires k < |spec.steps|
  {
    spec.steps[k].Id()
  }

  /** The transaction's program has reached this statement. */
  ghost predicate Reached(committed: Run, t: Txn, statement: Statement) {
    match statement
    case LockRun(_) => t.phase.Claimed?
    case WriteCheckpoint => t.phase.RunLocked?
    case MarkRowDone => t.phase.CheckpointWritten?
    case RecordOutput => t.phase.RowMarkedDone?
    case ReadCompleted => t.phase.OutputRecorded?
    case PromoteNext =>
      && t.phase.Promoting? && t.phase.next < |committed.spec.steps|
      && NextNode(committed.spec, t.phase.next) in committed.executions
    case CheckRunDone => t.phase.Promoting? && t.phase.next == |committed.spec.steps|
    case MarkRunFailed => t.phase.Claimed?
    case MarkRowFailed => t.phase.RunMarkedFailed?
    case SweepRow(n) => t.phase.Sweeping? && n in committed.executions
  }

  /** The rows the statement needs are not locked by another transaction. A guarded
      UPDATE waits for a row only when the row matches the guard, and promoteReadyNodes
      issues one only for a node that is ready. */
  ghost predicate Unblocked(s: System, tid: nat, statement: Statement)
    requires tid in s.open && s.open[tid].node in s.committed.executions
    requires Reached(s.committed, s.open[tid], statement)
  {
    var t := s.open[tid];
    var rows := View(s.committed, t).executions;
    match statement
    case LockRun(_) => RunFree(s)
    case MarkRunFailed => RunFree(s)
    case MarkRowDone => RowFree(s, tid, t.node)
    case MarkRowFailed => RowFree(s, tid, t.node)
    case PromoteNext =>
      var n := NextNode(s.committed.spec, t.phase.next);
      Ready(s.committed.spec, n, t.phase.completed) && rows[n].status == Blocked ==> RowFree(s, tid, n)
    case SweepRow(n) => Unclaimed(rows[n].status) ==> RowFree(s, tid, n)
    case _ => true
  }

  /** What a statement does to the transaction that issues it. */
  ghost function Advance(committed: Run, t: Txn, statement: Statement): Txn
    requires t.node in committed.executions && Reached(committed, t, statement)
  {
    var view := View(committed, t);
    match statement
    case LockRun(output) => t.(phase := RunLocked, output := output)
    case WriteCheckpoint =>
      t.(phase := CheckpointWritten,
         checkpoints := if t.node in view.checkpoints then t.checkpoints else t.checkpoints[t.node := t.output])
    case MarkRowDone =>
      t.(phase := RowMarkedDone, rows := t.rows[t.node := view.executions[t.node].(status := Done)])
    case RecordOutput =>
      t.(phase := OutputRecorded,
         outputs := if t.node in view.outputs then t.outputs else t.outputs[t.node := t.output])
    case ReadCompleted => t.(phase := Promoting(0, view.outputs.Keys))
    case PromoteNext =>
      var n := NextNode(committed.spec, t.phase.next);
      t.(phase := Promoting(t.phase.next + 1, t.phase.completed),
         rows := if Ready(committed.spec, n, t.phase.completed) && view.executions[n].status == Blocked
                 then t.rows[n := view.executions[n].(status := Queued)] else t.rows)
    case CheckRunDone =>
      t.(phase := Completed,
         status := if Ids(committed.spec) <= t.phase.completed && view.status != RunFailed
                   then Some(RunDone) else t.status)
    case MarkRunFailed => t.(phase := RunMarkedFailed, status := Some(RunFailed))
    case MarkRowFailed =>
      t.(phase := Sweeping({}), rows := t.rows[t.node := view.executions[t.node].(status := Failed)])
    case SweepRow(n) =>
      t.(phase := Sweeping(t.phase.visited + {n}),
         rows := if Unclaimed(view.executions[n].status)
                 then t.rows[n := view.executions[n].(status := Failed)] else t.rows)
  }

  ghost predicate CanStep(s: System, a: Action) {
    match a
    case BeginClaim(tid, n, lease) =>                       // SKIP LOCKED
      && tid !in s.open && n in s.committed.executions
      && Claimable(s.committed.executions[n], lease.now) && RowFree(s, tid, n)
    case BeginLater(tid, n, _) =>
      && tid !in s.open && n in s.committed.executions
      && s.committed.executions[n].attempts > 0 && RunFree(s)
    case Issue(tid, statement) =>
      && tid in s.open && s.open[tid].node in s.committed.executions
      && Reached(s.committed, s.open[tid], statement) && Unblocked(s, tid, statement)
    case Commit(tid) =>
      && tid in s.open
      && (s.open[tid].phase.Claimed? || s.open[tid].phase.Completed?
          || (s.open[tid].phase.Sweeping? && s.open[tid].phase.visited == s.committed.executions.Keys))
    case Abort(tid) => tid in s.open
  }

  ghost function DoStep(s: System, a: Action): System
    requires CanStep(s, a)
  {
    match a
    case BeginClaim(tid, n, lease) =>
      s.(open := s.open[tid := Txn(n, Some(lease), map[], Claimed,
                                   map[n := ClaimedRow(s.committed.executions[n], lease)], map[], map[], None)])
    case BeginLater(tid, n, output) =>
      s.(open := s.open[tid := Txn(n, None, output, RunLocked, map[], map[], map[], None)])
    case Issue(tid, statement) => s.(open := s.open[tid := Advance(s.committed, s.open[tid], statement)])
    case Commit(tid) => System(View(s.committed, s.open[tid]), s.open - {tid})
    case Abort(tid) => s.(open := s.open - {tid})
  }

  // ---- what an open transaction has done so far ---------------------------------------

  function Base(committed: Run, t: Txn): Run
    requires t.node in committed.executions
  {
    if t.lease.Some? then ClaimRow(committed, t.node, t.lease.value) else committed
  }

  /** completeStep or failRun executed up to a phase, on `base`. */
  function PartialEffect(base: Run, n: NodeId, output: Record, phase: Phase): Run
    requires n in base.executions
    requires phase.Promoting? ==> phase.next <= |base.spec.steps|
  {
    match phase
    case Claimed => base
    case RunLocked => base
    case CheckpointWritten => base.(checkpoints := InsertIfAbsent(base.checkpoints, n, output))
    case RowMarkedDone => SetStatus(base, n, Done).(checkpoints := InsertIfAbsent(base.checkpoints, n, output))
    case OutputRecorded => Recorded(base, n, output)
    case Promoting(k, _) =>
      var recorded := Recorded(base, n, output);
      Promote(recorded, recorded.outputs.Keys, IdsBelow(base.spec, k))
    case Completed => CompleteStep(base, n, output)
    case RunMarkedFailed => base.(status := RunFailed)
    case Sweeping(visited) => FailRemaining(SetStatus(base.(status := RunFailed), n, Failed), visited)
  }

  /** What a transaction must see: its whole transaction, partly executed on the rows
      committed *now*. */
  function Expected(committed: Run, t: Txn): Run
    requires t.node in committed.executions
    requires t.phase.Promoting? ==> t.phase.next <= |committed.spec.steps|
  {
    PartialEffect(Base(committed, t), t.node, t.output, t.phase)
  }

  /** The transaction holds its claim, and its phase, lease and locks fit together. */
  ghost predicate Shape(committed: Run, t: Txn) {
    && t.node in committed.executions
    && t.rows.Keys <= committed.executions.Keys
    && (match t.lease
        case Some(lease) => t.node in t.rows && Claimable(committed.executions[t.node], lease.now)
        case None => committed.executions[t.node].attempts > 0 && !t.phase.Claimed?
                     && !t.phase.RunMarkedFailed? && !t.phase.Sweeping?)
    && (t.phase.Claimed? ==>
          t.rows.Keys == {t.node} && t.outputs == map[] && t.checkpoints == map[] && t.status == None)
    && (t.phase.Promoting? ==>
          && t.phase.next <= |committed.spec.steps|
          && t.phase.completed == (committed.outputs + t.outputs).Keys)
  }

  ghost predicate TxnInv(committed: Run, t: Txn) {
    Shape(committed, t) && View(committed, t) == Expected(committed, t)
  }

  ghost predicate AllTxnInv(committed: Run, open: map<nat, Txn>) {
    forall u :: u in open ==> TxnInv(committed, open[u])
  }

  ghost predicate RowsExclusive(open: map<nat, Txn>) {
    forall u, v :: u in open && v in open && u != v ==> open[u].rows.Keys !! open[v].rows.Keys
  }

  ghost predicate RunExclusive(open: map<nat, Txn>) {
    forall u, v :: u in open && v in open && u != v ==> !HoldsRun(open[u]) || !HoldsRun(open[v])
  }

  ghost predicate SystemInv(s: System) {
    Inv(s.committed) && AllTxnInv(s.committed, s.open) && RowsExclusive(s.open) && RunExclusive(s.open)
  }
}
