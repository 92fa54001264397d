/**
  The other direction of the refinement: every history of whole transactions is what some
  interleaving of their statements commits, so the committed rows that interleavings can
  reach are exactly those that histories reach. Nothing in module Interleaving blocks a
  transaction that runs alone.
 */
module SerialRuns {
  import opened Wrappers
  import opened WorkflowSpecs
  import opened Runs
  import opened RunHistories
  import opened Interleaving
  import opened InterleavingProofs

  // ---- one transaction, alone ---------------------------------------------------------

  /** The transaction is on its way to commit this event. */
  ghost predicate OnTrack(c: Run, t: Txn, ev: Event) {
    && TxnInv(c, t) && t.node == ev.node
    && t.lease == (if ev.Complete? then None else Some(ev.lease))
    && match ev
       case ClaimOnly(_, _) => t.phase.Claimed?
       case ClaimFail(_, _) =>
         || t.phase.Claimed? || t.phase.RunMarkedFailed?
         || (t.phase.Sweeping? && t.phase.visited <= c.executions.Keys)
       case _ => t.phase.Claimed? || (Completing(t) && t.output == ev.output)
  }

  ghost predicate AtEnd(c: Run, t: Txn, ev: Event) {
    match ev
    case ClaimOnly(_, _) => t.phase.Claimed?
    case ClaimFail(_, _) => t.phase == Sweeping(c.executions.Keys)
    case _ => t.phase.Completed?
  }

  /** The next statement of completeStep. */
  function NextStatement(t: Txn, steps: nat, output: Record): Statement {
    match t.phase
    case Claimed => LockRun(output)
    case RunLocked => WriteCheckpoint
    case CheckpointWritten => MarkRowDone
    case RowMarkedDone => RecordOutput
    case OutputRecorded => ReadCompleted
    case Promoting(next, _) => if next < steps then PromoteNext else CheckRunDone
    case _ => CheckRunDone
  }

  function StatementsLeft(t: Txn, steps: nat): int {
    match t.phase
    case Claimed => steps + 6
    case RunLocked => steps + 5
    case CheckpointWritten => steps + 4
    case RowMarkedDone => steps + 3
    case OutputRecorded => steps + 2
    case Promoting(next, _) => steps - next + 1
    case _ => 0
  }

  /** What a statement of completeStep does to the fields that are no rows. */
  ghost predicate Advanced(t: Txn, t': Txn, steps: nat, output: Record) {
    && t'.node == t.node && t'.lease == t.lease && Completing(t')
    && t'.output == (if t.phase.Claimed? then output else t.output)
    && StatementsLeft(t', steps) == StatementsLeft(t, steps) - 1
  }

  lemma CompletionBegins(c: Run, t: Txn, output: Record)
    requires t.node in c.executions && (t.phase.Claimed? || t.phase.RunLocked? || t.phase.CheckpointWritten?)
    ensures Reached(c, t, NextStatement(t, |c.spec.steps|, output))
    ensures Advanced(t, Advance(c, t, NextStatement(t, |c.spec.steps|, output)), |c.spec.steps|, output)
  {
  }

  lemma CompletionRecords(c: Run, t: Txn, output: Record)
    requires t.node in c.executions && (t.phase.RowMarkedDone? || t.phase.OutputRecorded?)
    ensures Reached(c, t, NextStatement(t, |c.spec.steps|, output))
    ensures Advanced(t, Advance(c, t, NextStatement(t, |c.spec.steps|, output)), |c.spec.steps|, output)
  {
  }

  lemma CompletionPromotes(c: Run, t: Txn, output: Record)
    requires c.executions.Keys == Ids(c.spec) && t.node in c.executions
    requires t.phase.Promoting? && t.phase.next <= |c.spec.steps|
    ensures Reached(c, t, NextStatement(t, |c.spec.steps|, output))
    ensures Advanced(t, Advance(c, t, NextStatement(t, |c.spec.steps|, output)), |c.spec.steps|, output)
  {
    if t.phase.next < |c.spec.steps| {
      assert NextNode(c.spec, t.phase.next) in Ids(c.spec);
    }
  }

  /** A completion that is not at its end has a next statement. */
  lemma CompletionAdvances(c: Run, t: Txn, output: Record)
    requires c.executions.Keys == Ids(c.spec) && t.node in c.executions
    requires t.phase.Promoting? ==> t.phase.next <= |c.spec.steps|
    requires (t.phase.Claimed? || Completing(t)) && !t.phase.Completed?
    ensures Reached(c, t, NextStatement(t, |c.spec.steps|, output))
    ensures Advanced(t, Advance(c, t, NextStatement(t, |c.spec.steps|, output)), |c.spec.steps|, output)
  {
    if t.phase.Promoting? {
      CompletionPromotes(c, t, output);
    } else if t.phase.RowMarkedDone? || t.phase.OutputRecorded? {
      CompletionRecords(c, t, output);
    } else {
      CompletionBegins(c, t, output);
    }
  }

  /** How many statements of a failure are still to come. */
  ghost function FailureLeft(phase: Phase, nodes: set<NodeId>): int {
    match phase
    case Claimed => |nodes| + 2
    case RunMarkedFailed => |nodes| + 1
    case Sweeping(visited) => |nodes - visited|
    case _ => 0
  }

  ghost function Left(c: Run, t: Txn, ev: Event): int {
    match ev
    case ClaimOnly(_, _) => 0
    case ClaimFail(_, _) => FailureLeft(t.phase, c.executions.Keys)
    case _ => StatementsLeft(t, |c.spec.steps|)
  }

  lemma OneLess(nodes: set<NodeId>, visited: set<NodeId>, n: NodeId)
    requires n in nodes && n !in visited
    ensures |nodes - (visited + {n})| < |nodes - visited|
  {
    assert nodes - visited == (nodes - (visited + {n})) + {n};
  }

  /** What a statement of failRun does to the fields that are no rows. */
  ghost predicate FailureAdvanced(c: Run, t: Txn, t': Txn) {
    && t'.node == t.node && t'.lease == t.lease
    && (t'.phase.RunMarkedFailed? || (t'.phase.Sweeping? && t'.phase.visited <= c.executions.Keys))
    && 0 <= FailureLeft(t'.phase, c.executions.Keys) < FailureLeft(t.phase, c.executions.Keys)
  }

  lemma FailureFields(c: Run, t: Txn, st: Statement)
    requires t.node in c.executions && Reached(c, t, st)
    requires st.MarkRunFailed? || st.MarkRowFailed? || st.SweepRow?
    ensures var t' := Advance(c, t, st);
            && t'.node == t.node && t'.lease == t.lease
            && t'.phase == match st
                           case SweepRow(n) => Sweeping(t.phase.visited + {n})
                           case MarkRowFailed => Sweeping({})
                           case _ => RunMarkedFailed
  {
  }

  lemma FailureBegins(c: Run, t: Txn, t': Txn)
    requires t'.node == t.node && t'.lease == t.lease
    requires || (t.phase.Claimed? && t'.phase.RunMarkedFailed?)
             || (t.phase.RunMarkedFailed? && t'.phase == Sweeping({}))
    ensures FailureAdvanced(c, t, t')
  {
    assert c.executions.Keys - {} == c.executions.Keys;
  }

  lemma FailureSweeps(c: Run, t: Txn, t': Txn, n: NodeId)
    requires t'.node == t.node && t'.lease == t.lease
    requires t.phase.Sweeping? && t.phase.visited <= c.executions.Keys
    requires n in c.executions && n !in t.phase.visited && t'.phase == Sweeping(t.phase.visited + {n})
    ensures FailureAdvanced(c, t, t')
  {
    OneLess(c.executions.Keys, t.phase.visited, n);
  }

  /** A failure that is not at its end has a next statement. */
  lemma NextOfFailure(c: Run, t: Txn) returns (st: Statement)
    requires t.node in c.executions && t.phase != Sweeping(c.executions.Keys)
    requires t.phase.Claimed? || t.phase.RunMarkedFailed?
             || (t.phase.Sweeping? && t.phase.visited <= c.executions.Keys)
    ensures Reached(c, t, st) && !st.LockRun? && (st.MarkRunFailed? ==> t.phase.Claimed?)
    ensures FailureAdvanced(c, t, Advance(c, t, st))
  {
    if t.phase.Sweeping? {
      var n :| n in c.executions && n !in t.phase.visited;
      st := SweepRow(n);
      FailureFields(c, t, st);
      FailureSweeps(c, t, Advance(c, t, st), n);
    } else {
      st := if t.phase.Claimed? then MarkRunFailed else MarkRowFailed;
      FailureFields(c, t, st);
      FailureBegins(c, t, Advance(c, t, st));
    }
  }

  /** Alone, a transaction is never kept waiting. */
  lemma AloneIsUnblocked(c: Run, t: Txn, st: Statement)
    requires t.node in c.executions && Reached(c, t, st)
    requires st.LockRun? || st.MarkRunFailed? ==> t.phase.Claimed?
    ensures CanStep(System(c, map[0 := t]), Issue(0, st))
  {
  }

  lemma Proceed(c: Run, t: Txn, ev: Event) returns (st: Statement)
    requires Plain(c.spec) && c.executions.Keys == Ids(c.spec) && OnTrack(c, t, ev) && !AtEnd(c, t, ev)
    ensures CanStep(System(c, map[0 := t]), Issue(0, st))
    ensures OnTrack(c, Advance(c, t, st), ev) && 0 <= Left(c, Advance(c, t, st), ev) < Left(c, t, ev)
  {
    if ev.ClaimFail? {
      st := NextOfFailure(c, t);
      AdvanceInv(c, t, st);
    } else {
      st := ProceedCompletion(c, t, ev);
    }
    AloneIsUnblocked(c, t, st);
  }

  lemma ProceedCompletion(c: Run, t: Txn, ev: Event) returns (st: Statement)
    requires Plain(c.spec) && c.executions.Keys == Ids(c.spec) && OnTrack(c, t, ev) && !AtEnd(c, t, ev)
    requires ev.Complete? || ev.ClaimComplete?
    ensures Reached(c, t, st) && (st.LockRun? ==> t.phase.Claimed?) && !st.MarkRunFailed?
    ensures OnTrack(c, Advance(c, t, st), ev) && 0 <= Left(c, Advance(c, t, st), ev) < Left(c, t, ev)
  {
    st := NextStatement(t, |c.spec.steps|, ev.output);
    assert Shape(c, t);
    CompletionAdvances(c, t, ev.output);
    AdvanceInv(c, t, st);
    assert Shape(c, Advance(c, t, st));
  }

  lemma EndCommits(c: Run, t: Txn, ev: Event)
    requires OnTrack(c, t, ev) && AtEnd(c, t, ev)
    ensures CanStep(System(c, map[0 := t]), Commit(0))
    ensures Enabled(c, ev) && DoStep(System(c, map[0 := t]), Commit(0)) == System(Apply(c, ev), map[])
  {
    CommitIsEvent(c, t);
    EndIsEvent(c, t, ev);
    OnlyTransaction(t, t);
  }

  lemma EndIsEvent(c: Run, t: Txn, ev: Event)
    requires OnTrack(c, t, ev) && AtEnd(c, t, ev)
    ensures t.phase.Claimed? || t.phase.Completed? || t.phase == Sweeping(c.executions.Keys)
    ensures (t.lease.None? ==> t.phase.Completed?) && CommittedEvent(t) == ev
  {
    assert Shape(c, t);
  }

  lemma OnlyTransaction(t: Txn, t': Txn)
    ensures map[0 := t][0 := t'] == map[0 := t']
    ensures map[0 := t] - {0} == map[]
  {
  }

  /** The transaction that starts out for an event. */
  ghost function Begun(c: Run, ev: Event): Action {
    if ev.Complete? then BeginLater(0, ev.node, ev.output) else BeginClaim(0, ev.node, ev.lease)
  }

  lemma BeginsOnTrack(c: Run, ev: Event) returns (t: Txn)
    requires Enabled(c, ev)
    ensures CanStep(System(c, map[]), Begun(c, ev))
    ensures DoStep(System(c, map[]), Begun(c, ev)) == System(c, map[0 := t]) && OnTrack(c, t, ev)
  {
    if ev.Complete? {
      t := Txn(ev.node, None, ev.output, RunLocked, map[], map[], map[], None);
      LaterTxn(c, t, ev.node, ev.output);
    } else {
      t := Txn(ev.node, Some(ev.lease), map[], Claimed,
               map[ev.node := ClaimedRow(c.executions[ev.node], ev.lease)], map[], map[], None);
      ClaimedTxn(c, t, ev.node, ev.lease);
    }
  }

  // ---- one event after an interleaving ----------------------------------------------------

  ghost predicate EndsIn(systems: seq<System>, actions: seq<Action>, last: System) {
    IsInterleaving(systems, actions) && systems[|actions|] == last
  }

  lemma OneMoreAction(systems: seq<System>, actions: seq<Action>, a: Action, next: System)
    requires IsInterleaving(systems, actions) && CanStep(systems[|actions|], a)
    requires next == DoStep(systems[|actions|], a)
    ensures EndsIn(systems + [next], actions + [a], next)
  {
  }

  /** The interleaving goes on, and ends in this system. */
  ghost predicate GoesOnTo(systems: seq<System>, systems': seq<System>, actions': seq<Action>, last: System) {
    EndsIn(systems', actions', last) && systems < systems'
  }

  lemma GoesOnFurther(
    systems: seq<System>, s: System, systems': seq<System>, actions': seq<Action>, last: System)
    requires GoesOnTo(systems + [s], systems', actions', last)
    ensures GoesOnTo(systems, systems', actions', last)
  {
  }

  lemma DriveStep(systems: seq<System>, actions: seq<Action>, c: Run, t: Txn, ev: Event)
    returns (a: Action, t': Txn)
    requires EndsIn(systems, actions, System(c, map[0 := t]))
    requires Plain(c.spec) && c.executions.Keys == Ids(c.spec) && OnTrack(c, t, ev) && !AtEnd(c, t, ev)
    ensures EndsIn(systems + [System(c, map[0 := t'])], actions + [a], System(c, map[0 := t']))
    ensures OnTrack(c, t', ev) && 0 <= Left(c, t', ev) < Left(c, t, ev)
  {
    var st := Proceed(c, t, ev);
    a, t' := Issue(0, st), Advance(c, t, st);
    OnlyTransaction(t, t');
    OneMoreAction(systems, actions, a, System(c, map[0 := t']));
  }

  lemma CommitStep(systems: seq<System>, actions: seq<Action>, c: Run, t: Txn, ev: Event)
    requires EndsIn(systems, actions, System(c, map[0 := t]))
    requires OnTrack(c, t, ev) && AtEnd(c, t, ev)
    ensures Enabled(c, ev)
    ensures GoesOnTo(systems, systems + [System(Apply(c, ev), map[])], actions + [Commit(0)],
                     System(Apply(c, ev), map[]))
  {
    EndCommits(c, t, ev);
    OneMoreAction(systems, actions, Commit(0), System(Apply(c, ev), map[]));
  }

  /** Statement by statement to the end and the commit, while nobody else is there. */
  lemma {:induction false} DriveToCommit(systems: seq<System>, actions: seq<Action>, c: Run, t: Txn, ev: Event)
    returns (systems': seq<System>, actions': seq<Action>)
    requires EndsIn(systems, actions, System(c, map[0 := t]))
    requires Plain(c.spec) && c.executions.Keys == Ids(c.spec) && OnTrack(c, t, ev)
    ensures Enabled(c, ev) && GoesOnTo(systems, systems', actions', System(Apply(c, ev), map[]))
    decreases Left(c, t, ev)
  {
    if AtEnd(c, t, ev) {
      CommitStep(systems, actions, c, t, ev);
      systems', actions' := systems + [System(Apply(c, ev), map[])], actions + [Commit(0)];
    } else {
      var a, t' := DriveStep(systems, actions, c, t, ev);
      var s := System(c, map[0 := t']);
      systems', actions' := DriveToCommit(systems + [s], actions + [a], c, t', ev);
      GoesOnFurther(systems, s, systems', actions', System(Apply(c, ev), map[]));
    }
  }

  lemma BeginStep(systems: seq<System>, actions: seq<Action>, c: Run, ev: Event) returns (t: Txn)
    requires EndsIn(systems, actions, System(c, map[])) && Enabled(c, ev)
    ensures EndsIn(systems + [System(c, map[0 := t])], actions + [Begun(c, ev)], System(c, map[0 := t]))
    ensures OnTrack(c, t, ev)
  {
    t := BeginsOnTrack(c, ev);
    OneMoreAction(systems, actions, Begun(c, ev), System(c, map[0 := t]));
  }

  lemma RunEvent(systems: seq<System>, actions: seq<Action>, c: Run, ev: Event)
    returns (systems': seq<System>, actions': seq<Action>)
    requires EndsIn(systems, actions, System(c, map[])) && Enabled(c, ev)
    ensures GoesOnTo(systems, systems', actions', System(Apply(c, ev), map[]))
  {
    InterleavingInv(systems, actions, |actions|);
    var t := BeginStep(systems, actions, c, ev);
    var s := System(c, map[0 := t]);
    systems', actions' := DriveToCommit(systems + [s], actions + [Begun(c, ev)], c, t, ev);
    GoesOnFurther(systems, s, systems', actions', System(Apply(c, ev), map[]));
  }

  /** Each state of the history is committed at a moment of the interleaving at which no
      transaction is open, in the order of the history. */
  ghost predicate Realises(systems: seq<System>, states: seq<Run>, when: seq<nat>) {
    && |when| == |states|
    && (forall j :: 0 <= j < |states| ==> when[j] < |systems| && systems[when[j]] == System(states[j], map[]))
    && (forall j, k :: 0 <= j < k < |when| ==> when[j] < when[k])
  }

  /** Every history is what some interleaving commits. */
  lemma {:induction false} HistoryIsInterleaving(states: seq<Run>, events: seq<Event>)
    returns (systems: seq<System>, actions: seq<Action>, when: seq<nat>)
    requires IsHistory(states, events)
    ensures IsInterleaving(systems, actions) && Realises(systems, states, when) && when[|events|] == |actions|
    decreases |events|
  {
    var k := |events|;
    if k == 0 {
      systems, actions, when := [System(states[0], map[])], [], [0];
    } else {
      HistoryPrefix(states, events, k - 1);
      var before, done, at := HistoryIsInterleaving(states[..k], events[..k - 1]);
      LastEvent(states, events);
      systems, actions := RunEvent(before, done, states[k - 1], events[k - 1]);
      when := at + [|actions|];
      RealisesOneMore(before, systems, states, at, |actions|);
    }
  }

  lemma HistoryPrefix(states: seq<Run>, events: seq<Event>, k: nat)
    requires IsHistory(states, events) && k < |events|
    ensures IsHistory(states[..k + 1], events[..k])
  {
    assert states[..k + 1][0] == states[0];
  }

  lemma LastEvent(states: seq<Run>, events: seq<Event>)
    requires IsHistory(states, events) && events != []
    ensures Enabled(states[|events| - 1], events[|events| - 1])
    ensures states[|events|] == Apply(states[|events| - 1], events[|events| - 1])
  {
  }

  lemma RealisesOneMore(before: seq<System>, after: seq<System>, states: seq<Run>, at: seq<nat>, last: nat)
    requires states != [] && Realises(before, states[..|states| - 1], at) && before <= after
    requires |before| <= last < |after| && after[last] == System(states[|states| - 1], map[])
    ensures Realises(after, states, at + [last])
  {
    var when := at + [last];
    forall j | 0 <= j < |states|
      ensures when[j] < |after| && after[when[j]] == System(states[j], map[])
    {
      if j < |at| {
        assert states[..|states| - 1][j] == states[j] && after[at[j]] == before[at[j]];
      }
    }
  }

  /** The rows committed at some moment of some interleaving. */
  ghost predicate CommittedByInterleaving(run: Run) {
    exists systems, actions, i :: InterleavingCommits(systems, actions, i, run)
  }

  ghost predicate InterleavingCommits(systems: seq<System>, actions: seq<Action>, i: nat, run: Run) {
    IsInterleaving(systems, actions) && i < |systems| && systems[i].committed == run
  }

  ghost predicate ReachedByHistory(run: Run) {
    exists states, events, i :: HistoryReaches(states, events, i, run)
  }

  ghost predicate HistoryReaches(states: seq<Run>, events: seq<Event>, i: nat, run: Run) {
    IsHistory(states, events) && i < |states| && states[i] == run
  }

  /** Interleaved statement by statement, with aborts anywhere, the transactions of a run
      can commit exactly the rows they can commit one whole transaction after another. */
  lemma SameRowsCommitted(run: Run)
    ensures CommittedByInterleaving(run) <==> ReachedByHistory(run)
  {
    if CommittedByInterleaving(run) {
      var systems, actions, i: nat :| InterleavingCommits(systems, actions, i, run);
      var states, events, at, _ := InterleavingRefinesHistory(systems, actions);
      assert HistoryReaches(states, events, at[i], run);
    }
    if ReachedByHistory(run) {
      var states, events, i: nat :| HistoryReaches(states, events, i, run);
      var systems, actions, when := HistoryIsInterleaving(states, events);
      assert InterleavingCommits(systems, actions, when[i], run);
    }
  }
}
