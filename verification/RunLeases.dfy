/**
  What leases and attempts mean over a whole history: a node handed out is not handed out
  again before its lease has expired, and attempts count the committed claims.
 */
module RunLeases {
  import opened Wrappers
  import opened WorkflowSpecs
  import opened Runs
  import opened RunInvariants
  import opened RunHistories

  predicate Claims(ev: Event, n: NodeId) {
    !ev.Complete? && ev.node == n
  }

  /** How many committed transactions claimed the node. */
  function ClaimCount(events: seq<Event>, n: NodeId): nat {
    if events == [] then 0
    else ClaimCount(events[..|events| - 1], n) + if Claims(events[|events| - 1], n) then 1 else 0
  }

  lemma OwnRowUnderEvent(run: Run, ev: Event)
    requires Enabled(run, ev)
    ensures ev.node in Apply(run, ev).executions
    ensures var before, after := run.executions[ev.node], Apply(run, ev).executions[ev.node];
            && (ev.Complete? ==> after == before.(status := Done))
            && (!ev.Complete? ==> after.attempts == before.attempts + 1 && after.worker == ev.lease.worker
                                  && after.leaseUntil == ev.lease.leaseUntil)
            && (ev.ClaimOnly? ==> after.status == Running)
  {
    match ev
    case ClaimOnly(_, _) =>
    case ClaimComplete(m, lease, output) => CompleteStepRows(ClaimRow(run, m, lease), m, output);
    case ClaimFail(m, lease) => FailRunRows(ClaimRow(run, m, lease), m);
    case Complete(m, output) => CompleteStepRows(run, m, output);
  }

  lemma OtherRowUnderEvent(run: Run, ev: Event, n: NodeId)
    requires Enabled(run, ev) && n in run.executions && n != ev.node
    ensures n in Apply(run, ev).executions
    ensures var before, after := run.executions[n], Apply(run, ev).executions[n];
            && after == before.(status := after.status)
            && (before.status in {Running, Done} ==> after.status == before.status)
            && (after.status == Running ==> before.status == Running)
  {
    match ev
    case ClaimOnly(_, _) =>
    case ClaimComplete(m, lease, output) => CompleteStepRows(ClaimRow(run, m, lease), m, output);
    case ClaimFail(m, lease) => FailRunRows(ClaimRow(run, m, lease), m);
    case Complete(m, output) => CompleteStepRows(run, m, output);
  }

  /** What an event does to the lease of a row: a claim replaces it, nothing else touches
      it, and a running row of another node keeps running. */
  lemma RowUnderEvent(run: Run, ev: Event, n: NodeId)
    requires Enabled(run, ev) && n in run.executions
    ensures n in Apply(run, ev).executions
    ensures var before, after := run.executions[n], Apply(run, ev).executions[n];
            && after.attempts == before.attempts + (if Claims(ev, n) then 1 else 0)
            && after.leaseUntil == (if Claims(ev, n) then ev.lease.leaseUntil else before.leaseUntil)
            && after.worker == (if Claims(ev, n) then ev.lease.worker else before.worker)
            && (ev.node != n && before.status in {Running, Done} ==> after.status == before.status)
            && (ev.Complete? && ev.node == n ==> after.status == Done)
            && (ev.ClaimOnly? && ev.node == n ==> after.status == Running)
            && (after.status == Running && !Claims(ev, n) ==> before.status == Running)
  {
    if ev.node == n {
      OwnRowUnderEvent(run, ev);
    } else {
      OtherRowUnderEvent(run, ev, n);
    }
  }

  /** A row's attempts are the claims of it that committed: a rolled-back one leaves no
      trace, and completing or failing adds none. */
  lemma {:induction false} AttemptsCountClaims(states: seq<Run>, events: seq<Event>, i: nat, n: NodeId)
    requires IsHistory(states, events) && i < |states| && n in states[i].executions
    ensures states[i].executions[n].attempts == ClaimCount(events[..i], n)
  {
    if i > 0 {
      SameNodes(states, events, i - 1);
      SameNodes(states, events, i);
      AttemptsCountClaims(states, events, i - 1, n);
      AttemptsUnderEvent(states, events, i - 1, n);
      assert events[..i][..i - 1] == events[..i - 1];
    } else {
      SubmittedAttempts(states[0].spec, states[0].input);
    }
  }

  lemma SubmittedAttempts(spec: Spec, input: Record)
    ensures forall n :: n in Submitted(spec, input).executions ==> Submitted(spec, input).executions[n].attempts == 0
  {
  }

  lemma AttemptsUnderEvent(states: seq<Run>, events: seq<Event>, i: nat, n: NodeId)
    requires IsHistory(states, events) && i < |events| && n in states[i].executions
    ensures n in states[i + 1].executions
    ensures states[i + 1].executions[n].attempts ==
            states[i].executions[n].attempts + if Claims(events[i], n) then 1 else 0
  {
    RowUnderEvent(states[i], events[i], n);
  }

  /** The rows of a run are those of its steps, throughout. */
  lemma SameNodes(states: seq<Run>, events: seq<Event>, i: nat)
    requires IsHistory(states, events) && i < |states|
    ensures states[i].executions.Keys == Ids(states[0].spec)
  {
    HistoryInv(states, events, i);
    HistoryExtends(states, events, 0, i);
  }

  /** Between a committed claim and the next one the row runs under that claim's lease, or
      it is done. */
  lemma {:induction false} ClaimHolds(states: seq<Run>, events: seq<Event>, i: nat, j: nat, n: NodeId)
    requires IsHistory(states, events) && i < j < |states| && events[i].ClaimOnly? && events[i].node == n
    requires forall k :: i < k < j ==> !Claims(events[k], n)
    ensures n in states[j].executions
    ensures states[j].executions[n].status == Done
            || (states[j].executions[n].status == Running
                && states[j].executions[n].leaseUntil == events[i].lease.leaseUntil
                && states[j].executions[n].worker == events[i].lease.worker)
    decreases j
  {
    if j == i + 1 {
      RowUnderEvent(states[i], events[i], n);
    } else {
      ClaimHolds(states, events, i, j - 1, n);
      RowUnderEvent(states[j - 1], events[j - 1], n);
    }
  }

  /** The lease of the last committed claim of the node. */
  function LastClaim(events: seq<Event>, n: NodeId): Option<Lease> {
    if events == [] then None
    else if Claims(events[|events| - 1], n) then Some(events[|events| - 1].lease)
    else LastClaim(events[..|events| - 1], n)
  }

  /** A running row runs under the lease of its last committed claim. */
  lemma {:induction false} RunningUnderLastClaim(states: seq<Run>, events: seq<Event>, i: nat, n: NodeId)
    requires IsHistory(states, events) && i < |states| && n in states[i].executions
    requires states[i].executions[n].status == Running
    ensures LastClaim(events[..i], n).Some?
    ensures LastClaim(events[..i], n).value.leaseUntil == states[i].executions[n].leaseUntil
    ensures LastClaim(events[..i], n).value.worker == states[i].executions[n].worker
  {
    RunningBefore(states, events, i, n);
    if !Claims(events[i - 1], n) {
      RunningUnderLastClaim(states, events, i - 1, n);
    }
  }

  /** A running row was claimed by the last event, or was running before it. */
  lemma RunningBefore(states: seq<Run>, events: seq<Event>, i: nat, n: NodeId)
    requires IsHistory(states, events) && i < |states| && n in states[i].executions
    requires states[i].executions[n].status == Running
    ensures i > 0 && n in states[i - 1].executions
    ensures LastClaim(events[..i], n) ==
            if Claims(events[i - 1], n) then Some(events[i - 1].lease) else LastClaim(events[..i - 1], n)
    ensures var row, before := states[i].executions[n], states[i - 1].executions[n];
            if Claims(events[i - 1], n)
            then row.leaseUntil == events[i - 1].lease.leaseUntil && row.worker == events[i - 1].lease.worker
            else before.status == Running && row.leaseUntil == before.leaseUntil && row.worker == before.worker
  {
    SameNodes(states, events, i);
    SameNodes(states, events, i - 1);
    assert events[..i][..i - 1] == events[..i - 1] && events[..i][i - 1] == events[i - 1];
    assert Enabled(states[i - 1], events[i - 1]);
    RowUnderEvent(states[i - 1], events[i - 1], n);
  }

  /** The rows that can be claimed are exactly the queued ones and the running ones whose
      last committed claim has a lease that has expired: a worker that died is taken over
      from the moment its lease ends. */
  lemma ClaimableIff(states: seq<Run>, events: seq<Event>, i: nat, n: NodeId, lease: Lease, output: Record)
    requires IsHistory(states, events) && i < |states| && n in states[i].executions
    ensures var row, last := states[i].executions[n], LastClaim(events[..i], n);
            (|| row.status == Queued
             || (row.status == Running && last.Some? && last.value.leaseUntil < lease.now)) <==>
            Enabled(states[i], ClaimOnly(n, lease))
    ensures Enabled(states[i], ClaimOnly(n, lease)) <==> Enabled(states[i], ClaimComplete(n, lease, output))
    ensures Enabled(states[i], ClaimOnly(n, lease)) <==> Enabled(states[i], ClaimFail(n, lease))
  {
    if states[i].executions[n].status == Running {
      RunningUnderLastClaim(states, events, i, n);
    }
  }

  /** A claim that was committed and never settled can be taken over exactly from the end of
      its lease on. */
  lemma AbandonedClaimIsTakenOver(states: seq<Run>, events: seq<Event>, i: nat, j: nat, n: NodeId, lease: Lease)
    requires IsHistory(states, events) && i < j < |states| && events[i].ClaimOnly? && events[i].node == n
    requires forall k :: i < k < j ==> !Claims(events[k], n)
    requires n in states[j].executions && states[j].executions[n].status != Done
    ensures Enabled(states[j], ClaimOnly(n, lease)) <==> events[i].lease.leaseUntil < lease.now
  {
    ClaimHolds(states, events, i, j, n);
  }

  /** Mutual exclusion by lease: of two consecutive claims of a node, the second comes after
      the first one's lease has expired. */
  lemma LeaseExcludes(states: seq<Run>, events: seq<Event>, i: nat, j: nat, n: NodeId)
    requires IsHistory(states, events) && i < j < |events| && Claims(events[i], n) && Claims(events[j], n)
    requires forall k :: i < k < j ==> !Claims(events[k], n)
    ensures events[i].ClaimOnly? && events[i].lease.leaseUntil < events[j].lease.now
  {
    assert Enabled(states[j], events[j]);
    if events[i].ClaimOnly? {
      ClaimHolds(states, events, i, j, n);
    } else {
      SettledStays(states, events, i, j, n);
    }
  }

  /** A node that a transaction claimed and completed or failed is never claimed again. */
  lemma {:induction false} SettledStays(states: seq<Run>, events: seq<Event>, i: nat, j: nat, n: NodeId)
    requires IsHistory(states, events) && i < j < |states|
    requires (events[i].ClaimComplete? || events[i].ClaimFail?) && events[i].node == n
    ensures n in states[j].executions && states[j].executions[n].status in {Done, Failed}
    decreases j
  {
    if j == i + 1 {
      assert Enabled(states[i], events[i]);
      SettledOnce(states[i], events[i]);
    } else {
      SettledStays(states, events, i, j - 1, n);
      SettledNext(states, events, j - 1, n);
    }
  }

  lemma SettledNext(states: seq<Run>, events: seq<Event>, i: nat, n: NodeId)
    requires IsHistory(states, events) && i < |events|
    requires n in states[i].executions && states[i].executions[n].status in {Done, Failed}
    ensures n in states[i + 1].executions && states[i + 1].executions[n].status in {Done, Failed}
  {
    assert Enabled(states[i], events[i]);
    SettledRow(states[i], events[i], n);
  }

  lemma SettledOnce(run: Run, ev: Event)
    requires Enabled(run, ev) && (ev.ClaimComplete? || ev.ClaimFail?)
    ensures ev.node in Apply(run, ev).executions && Apply(run, ev).executions[ev.node].status in {Done, Failed}
  {
    if ev.ClaimComplete? {
      CompleteStepRows(ClaimRow(run, ev.node, ev.lease), ev.node, ev.output);
    } else {
      FailRunRows(ClaimRow(run, ev.node, ev.lease), ev.node);
    }
  }

  lemma SettledRow(run: Run, ev: Event, n: NodeId)
    requires Enabled(run, ev) && n in run.executions && run.executions[n].status in {Done, Failed}
    ensures n in Apply(run, ev).executions && Apply(run, ev).executions[n].status in {Done, Failed}
  {
    match ev
    case ClaimOnly(_, _) =>
    case ClaimComplete(m, lease, output) => CompleteStepRows(ClaimRow(run, m, lease), m, output);
    case ClaimFail(m, lease) => FailRunRows(ClaimRow(run, m, lease), m);
    case Complete(m, output) => CompleteStepRows(run, m, output);
  }
}
