/**
  Dynamic map fan-out and ordered join over the durable-execution tables
  (archive/spikes/1.8-map-foreach/src/worker.js, schema.sql).

  A worker claims one row and handles it in the same transaction: a map row fans out or
  joins, any other row is retried or completed. Children of a map are rows of the same
  table, keyed here by the map and the position in its source.
 */
module MapForEach {
  import opened Wrappers

  datatype RowId = Top(n: nat) | Child(mapId: nat, index: nat)

  datatype Input = MapInput(source: Option<seq<int>>, failIndices: map<nat, nat>) | StepInput(item: int)

  datatype Status = Queued | Running | AwaitingChildren | Done

  datatype Row = Row(input: Input, status: Status, attempts: nat, failRemaining: nat)

  datatype MapNode = MapNode(total: nat, completed: nat, source: seq<int>)

  /** `checkpoints` holds the outputs of step "enrichOne", `joined` those of step "join". */
  datatype Tables = Tables(
    rows: map<RowId, Row>,
    mapNodes: map<nat, MapNode>,
    checkpoints: map<RowId, int>,
    joined: map<nat, nat>,
    results: map<nat, seq<Option<int>>>)

  function EnrichOne(item: int): int {
    item * 2
  }

  function Failures(failIndices: map<nat, nat>, i: nat): nat {
    if i in failIndices then failIndices[i] else 0
  }

  // ---- the transactions on values -------------------------------------------------------

  /** A running row may be claimed again once its lease has expired, which can be at any
      time. */
  predicate Claimable(row: Row) {
    row.status == Queued || row.status == Running
  }

  function Claimed(t: Tables, id: RowId): Tables
    requires id in t.rows
  {
    t.(rows := t.rows[id := t.rows[id].(status := Running, attempts := t.rows[id].attempts + 1)])
  }

  function SetStatus(rows: map<RowId, Row>, id: RowId, status: Status): map<RowId, Row>
    requires id in rows
  {
    rows[id := rows[id].(status := status)]
  }

  function ChildRow(source: seq<int>, failIndices: map<nat, nat>, i: nat): Row
    requires i < |source|
  {
    Row(StepInput(source[i]), Queued, 0, Failures(failIndices, i))
  }

  /** The rows after inserting the first `n` children of map `p`. */
  function WithChildren(rows: map<RowId, Row>, p: nat, source: seq<int>, failIndices: map<nat, nat>, n: nat)
    : map<RowId, Row>
    requires n <= |source|
  {
    if n == 0 then rows
    else WithChildren(rows, p, source, failIndices, n - 1)[Child(p, n - 1) := ChildRow(source, failIndices, n - 1)]
  }

  predicate IsNewChild(id: RowId, p: nat, n: nat) {
    id.Child? && id.mapId == p && id.index < n
  }

  lemma {:induction false} WithChildrenRow(
    rows: map<RowId, Row>, p: nat, source: seq<int>, failIndices: map<nat, nat>, n: nat, id: RowId)
    requires n <= |source|
    ensures var r := WithChildren(rows, p, source, failIndices, n);
            && (id in r <==> id in rows || IsNewChild(id, p, n))
            && (id in r ==> r[id] == if IsNewChild(id, p, n) then ChildRow(source, failIndices, id.index) else rows[id])
  {
    if n > 0 {
      WithChildrenRow(rows, p, source, failIndices, n - 1, id);
    }
  }

  /** A parked map with one queued row per item of its source, each owing its failures. */
  ghost predicate HasChildren(t: Tables, p: nat, source: seq<int>, failIndices: map<nat, nat>) {
    && Top(p) in t.rows && t.rows[Top(p)].status == AwaitingChildren
    && p in t.mapNodes && t.mapNodes[p] == MapNode(|source|, 0, source)
    && forall i: nat :: i < |source| ==>
         && Child(p, i) in t.rows
         && t.rows[Child(p, i)] == Row(StepInput(source[i]), Queued, 0, if i in failIndices then failIndices[i] else 0)
  }

  function FannedOut(t: Tables, p: nat, source: seq<int>, failIndices: map<nat, nat>): Tables
    requires Top(p) in t.rows
  {
    t.(rows := WithChildren(t.rows, p, source, failIndices, |source|)[
         Top(p) := t.rows[Top(p)].(status := AwaitingChildren)],
       mapNodes := t.mapNodes[p := MapNode(|source|, 0, source)])
  }

  lemma FannedHasChildren(t: Tables, p: nat, source: seq<int>, failIndices: map<nat, nat>)
    requires Top(p) in t.rows
    ensures HasChildren(FannedOut(t, p, source, failIndices), p, source, failIndices)
  {
    forall i: nat | i < |source|
      ensures Child(p, i) in WithChildren(t.rows, p, source, failIndices, |source|)
      ensures WithChildren(t.rows, p, source, failIndices, |source|)[Child(p, i)] == ChildRow(source, failIndices, i)
    {
      WithChildrenRow(t.rows, p, source, failIndices, |source|, Child(p, i));
    }
  }

  function Retried(t: Tables, id: RowId): Tables
    requires id in t.rows && t.rows[id].failRemaining > 0
  {
    t.(rows := t.rows[id := t.rows[id].(failRemaining := t.rows[id].failRemaining - 1, status := Queued)])
  }

  /** Counts one more done child of map `p`; the last one re-queues the map. */
  function Bumped(t: Tables, p: nat): Tables {
    if p !in t.mapNodes then t
    else
      var m := t.mapNodes[p].(completed := t.mapNodes[p].completed + 1);
      t.(mapNodes := t.mapNodes[p := m],
         rows := if m.completed == m.total && Top(p) in t.rows then SetStatus(t.rows, Top(p), Queued) else t.rows)
  }

  function Completed(t: Tables, id: RowId, item: int): Tables
    requires id in t.rows
  {
    var done := t.(rows := SetStatus(t.rows, id, Done),
                   checkpoints := if id in t.checkpoints then t.checkpoints else t.checkpoints[id := EnrichOne(item)]);
    if id.Child? then Bumped(done, id.mapId) else done
  }

  /** Positions of the children of `p` that have a checkpoint. */
  function ReadyChildren(t: Tables, p: nat): set<nat> {
    set id | id in t.rows && id in t.checkpoints && id.Child? && id.mapId == p :: id.index
  }

  /** The array of outputs by position, with holes where there is none. */
  function JoinOutputs(t: Tables, p: nat, total: nat): seq<Option<int>> {
    seq(total, i requires 0 <= i =>
      if i in ReadyChildren(t, p) then Some(t.checkpoints[Child(p, i)]) else None)
  }

  function Joined(t: Tables, p: nat, total: nat): Tables
    requires Top(p) in t.rows
  {
    t.(rows := SetStatus(t.rows, Top(p), Done),
       joined := if p in t.joined then t.joined else t.joined[p := total],
       results := if p in t.results then t.results else t.results[p := JoinOutputs(t, p, total)])
  }

  /** processOne on a claimed row; None is a rollback. */
  function Process(t: Tables, id: RowId): Option<Tables>
    requires id in t.rows
  {
    var row, claimed := t.rows[id], Claimed(t, id);
    match row.input
    case StepInput(item) =>
      Some(if row.failRemaining > 0 then Retried(claimed, id) else Completed(claimed, id, item))
    case MapInput(source, failIndices) =>
      if id.Child? then None
      else if id.n !in t.mapNodes then
        if source.None? then None else Some(FannedOut(claimed, id.n, source.value, failIndices))
      else if |ReadyChildren(claimed, id.n)| != t.mapNodes[id.n].total then None
      else Some(Joined(claimed, id.n, t.mapNodes[id.n].total))
  }

  // ---- the worker over the tables ---------------------------------------------------------

  datatype Report = Idle | RolledBack(id: RowId) | Handled(id: RowId)

  class Database {
    var rows: map<RowId, Row>
    var mapNodes: map<nat, MapNode>
    var checkpoints: map<RowId, int>
    var joined: map<nat, nat>
    var results: map<nat, seq<Option<int>>>

    ghost function Contents(): Tables
      reads this
    {
      Tables(rows, mapNodes, checkpoints, joined, results)
    }

    method FanOut(p: nat, source: Option<seq<int>>, failIndices: map<nat, nat>) returns (committed: bool)
      requires Top(p) in rows
      modifies this
      ensures committed <==> source.Some?
      ensures committed ==> Contents() == FannedOut(old(Contents()), p, source.value, failIndices)
      ensures committed ==> HasChildren(Contents(), p, source.value, failIndices)
    {
      if source.None? {
        return false;
      }
      var items := source.value;
      ghost var start := rows;
      for i := 0 to |items|
        invariant rows == WithChildren(start, p, items, failIndices, i)
        invariant Contents() == old(Contents()).(rows := rows)
      {
        rows := rows[Child(p, i) := ChildRow(items, failIndices, i)];
      }
      WithChildrenRow(start, p, items, failIndices, |items|, Top(p));
      FannedHasChildren(old(Contents()), p, items, failIndices);
      mapNodes := mapNodes[p := MapNode(|items|, 0, items)];
      rows := rows[Top(p) := rows[Top(p)].(status := AwaitingChildren)];
      return true;
    }

    method ProcessStep(id: RowId, item: int)
      requires id in rows
      modifies this
      ensures Contents() == if old(rows)[id].failRemaining > 0 then Retried(old(Contents()), id)
                            else Completed(old(Contents()), id, item)
    {
      var row := rows[id];
      if row.failRemaining > 0 {
        rows := rows[id := row.(failRemaining := row.failRemaining - 1, status := Queued)];
        return;
      }
      if id !in checkpoints {
        checkpoints := checkpoints[id := EnrichOne(item)];
      }
      rows := rows[id := rows[id].(status := Done)];
      if id.Child? {
        CountChild(id.mapId);
      }
    }

    method CountChild(p: nat)
      modifies this
      ensures Contents() == Bumped(old(Contents()), p)
    {
      if p in mapNodes {
        var m := mapNodes[p].(completed := mapNodes[p].completed + 1);
        mapNodes := mapNodes[p := m];
        if m.completed == m.total && Top(p) in rows {
          rows := rows[Top(p) := rows[Top(p)].(status := Queued)];
        }
      }
    }

    /** The outputs are read in some order; each goes to its own position. */
    method CollectOutputs(p: nat, total: nat) returns (outputs: seq<Option<int>>)
      requires forall i :: i in ReadyChildren(Contents(), p) ==> i < total
      ensures outputs == JoinOutputs(Contents(), p, total)
    {
      var enriched := new Option<int>[total](_ => None);
      var children := set id | id in rows && id in checkpoints && id.Child? && id.mapId == p;
      var unread := children;
      while unread != {}
        invariant unread <= children && Collected(enriched[..], p, total, checkpoints, children - unread)
        decreases |unread|
      {
        var child :| child in unread;
        assert child.index in ReadyChildren(Contents(), p);
        CollectOne(enriched[..], p, total, checkpoints, children - unread, child);
        enriched[child.index] := Some(checkpoints[child]);
        unread := unread - {child};
        assert children - unread == children - (unread + {child}) + {child};
      }
      AllCollected(Contents(), enriched[..], p, total, children);
      return enriched[..];
    }

    method Join(p: nat) returns (committed: bool)
      requires Top(p) in rows && p in mapNodes
      requires forall i :: i in ReadyChildren(Contents(), p) ==> i < mapNodes[p].total
      modifies this
      ensures committed <==> |ReadyChildren(old(Contents()), p)| == old(mapNodes)[p].total
      ensures committed ==> Contents() == Joined(old(Contents()), p, old(mapNodes)[p].total)
    {
      var total := mapNodes[p].total;
      var children := set id | id in rows && id in checkpoints && id.Child? && id.mapId == p :: id.index;
      if |children| != total {
        return false;
      }
      var outputs := CollectOutputs(p, total);
      if p !in results {
        results := results[p := outputs];
      }
      if p !in joined {
        joined := joined[p := total];
      }
      rows := rows[Top(p) := rows[Top(p)].(status := Done)];
      return true;
    }

    method Claim(id: RowId)
      requires id in rows
      modifies this
      ensures Contents() == Claimed(old(Contents()), id)
    {
      rows := rows[id := rows[id].(status := Running, attempts := rows[id].attempts + 1)];
    }

    /** claim_execution: some row that is queued, or running under a lease that expired. */
    method FindClaimable() returns (claimed: Option<RowId>)
      ensures claimed.None? <==> forall id :: id in rows ==> rows[id].status !in {Queued, Running}
      ensures claimed.Some? ==> claimed.value in rows && rows[claimed.value].status in {Queued, Running}
    {
      var queue := set id | id in rows && Claimable(rows[id]);
      if queue == {} {
        assert forall id :: id in rows && Claimable(rows[id]) ==> id in queue;
        return None;
      }
      var id :| id in queue;
      return Some(id);
    }

    method HandleClaimed(id: RowId) returns (committed: bool)
      requires id in rows && RowsInv(Contents())
      modifies this
      ensures committed <==> Process(old(Contents()), id).Some?
      ensures committed ==> Process(old(Contents()), id) == Some(Contents())
    {
      ghost var start := Contents();
      var input := rows[id].input;
      MapRowIsTop(start, id);
      Claim(id);
      match input
      case StepInput(item) =>
        ProcessStep(id, item);
        return true;
      case MapInput(source, failIndices) =>
        committed := HandleMap(id.n, source, failIndices, start);
    }

    /** A claimed map row: the fan-out claim or the join claim. */
    method HandleMap(p: nat, source: Option<seq<int>>, failIndices: map<nat, nat>, ghost start: Tables)
      returns (committed: bool)
      requires RowsInv(start) && Top(p) in start.rows && start.rows[Top(p)].input == MapInput(source, failIndices)
      requires Contents() == Claimed(start, Top(p))
      modifies this
      ensures committed <==> Process(start, Top(p)).Some?
      ensures committed ==> Process(start, Top(p)) == Some(Contents())
    {
      if p !in mapNodes {
        committed := FanOut(p, source, failIndices);
      } else {
        ReadyChildrenFit(start, Contents(), p);
        committed := Join(p);
      }
    }

    /** processOne: an exception rolls back everything, the claim included. */
    method ProcessOne() returns (report: Report)
      requires Inv(Contents())
      modifies this
      ensures Inv(Contents())
      ensures match report
              case Idle =>
                Contents() == old(Contents()) && forall id :: id in rows ==> rows[id].status !in {Queued, Running}
              case RolledBack(id) =>
                && Contents() == old(Contents())
                && id in rows && rows[id].status in {Queued, Running} && Process(Contents(), id).None?
              case Handled(id) =>
                && id in old(rows) && old(rows)[id].status in {Queued, Running}
                && Process(old(Contents()), id) == Some(Contents())
    {
      ghost var start := Contents();
      var claimed := FindClaimable();
      if claimed.None? {
        return Idle;
      }
      var id := claimed.value;
      var rows0, mapNodes0, checkpoints0, joined0, results0 := rows, mapNodes, checkpoints, joined, results;
      var committed := HandleClaimed(id);
      if !committed {
        rows, mapNodes, checkpoints, joined, results := rows0, mapNodes0, checkpoints0, joined0, results0;
        return RolledBack(id);
      }
      ProcessInv(start, id);
      return Handled(id);
    }
  }

  // ---- what every committed transaction keeps ---------------------------------------------

  ghost predicate ChildInv(row: Row, item: int, failures: nat) {
    && row.input == StepInput(item)
    && row.status in {Queued, Done}
    && row.failRemaining <= failures
    && row.attempts == failures - row.failRemaining + (if row.status == Done then 1 else 0)
    && (row.status == Done ==> row.failRemaining == 0)
  }

  ghost function DoneChildren(rows: map<RowId, Row>, p: nat, total: nat): set<nat> {
    set i: nat | i < total && Child(p, i) in rows && rows[Child(p, i)].status == Done
  }

  function AllEnriched(source: seq<int>): seq<Option<int>> {
    seq(|source|, i requires 0 <= i < |source| => Some(EnrichOne(source[i])))
  }

  ghost predicate ChildrenInv(rows: map<RowId, Row>, p: nat, m: MapNode, failIndices: map<nat, nat>) {
    && m.total == |m.source|
    && (forall i: nat :: i < m.total ==>
          Child(p, i) in rows && ChildInv(rows[Child(p, i)], m.source[i], Failures(failIndices, i)))
    && m.completed == |DoneChildren(rows, p, m.total)|
  }

  /** The parent of a fanned-out map: parked until the last child, then queued once, then
      done with the outputs in source order. */
  ghost predicate ParentInv(t: Tables, row: Row, p: nat, m: MapNode) {
    if row.status == Done
    then row.attempts == 2 && m.completed == m.total > 0 && p in t.results && t.results[p] == AllEnriched(m.source)
    else row.attempts == 1 && p !in t.results &&
         row.status == if m.completed == m.total > 0 then Queued else AwaitingChildren
  }

  ghost predicate MapInv(t: Tables, p: nat)
    requires Top(p) in t.rows && t.rows[Top(p)].input.MapInput?
  {
    var row := t.rows[Top(p)];
    if p !in t.mapNodes then row.status == Queued && row.attempts == 0 && p !in t.results
    else
      && row.input.source == Some(t.mapNodes[p].source)
      && ChildrenInv(t.rows, p, t.mapNodes[p], row.input.failIndices)
      && ParentInv(t, row, p, t.mapNodes[p])
  }

  /** Every bookkeeping row belongs to a map, and every child to a fanned-out one. */
  ghost predicate OwnedInv(t: Tables) {
    && (forall p :: p in t.mapNodes ==> Top(p) in t.rows && t.rows[Top(p)].input.MapInput?)
    && (forall p: nat, i: nat :: Child(p, i) in t.rows ==>
          p in t.mapNodes && i < t.mapNodes[p].total && t.rows[Child(p, i)].input.StepInput?)
    && (forall p :: p in t.results ==> p in t.mapNodes)
  }

  /** No committed row is running, and a step never waits for children. */
  ghost predicate StatusesInv(t: Tables) {
    && (forall id :: id in t.rows ==> t.rows[id].status != Running)
    && (forall id :: id in t.rows && t.rows[id].input.StepInput? ==> t.rows[id].status != AwaitingChildren)
  }

  /** The steps with a checkpoint are the done ones, and it holds their output. */
  ghost predicate CheckpointsInv(t: Tables) {
    && (forall id :: id in t.checkpoints <==> id in t.rows && t.rows[id].input.StepInput? && t.rows[id].status == Done)
    && (forall id :: id in t.checkpoints ==> t.checkpoints[id] == EnrichOne(t.rows[id].input.item))
  }

  ghost predicate RowsInv(t: Tables) {
    OwnedInv(t) && StatusesInv(t) && CheckpointsInv(t)
  }

  ghost predicate Inv(t: Tables) {
    && RowsInv(t)
    && forall p :: Top(p) in t.rows && t.rows[Top(p)].input.MapInput? ==> MapInv(t, p)
  }

  lemma MapRowIsTop(t: Tables, id: RowId)
    requires RowsInv(t) && id in t.rows
    ensures t.rows[id].input.MapInput? ==> id.Top?
  {
    if id.Child? {
      assert Child(id.mapId, id.index) in t.rows;
    }
  }

  /** The outputs of the children in `read` are in place, all other places are empty. */
  ghost predicate Collected(
    outputs: seq<Option<int>>, p: nat, total: nat, checkpoints: map<RowId, int>, read: set<RowId>)
  {
    && |outputs| == total && read <= checkpoints.Keys
    && forall i {:trigger outputs[i]} :: 0 <= i < total ==>
         outputs[i] == if Child(p, i) in read then Some(checkpoints[Child(p, i)]) else None
  }

  lemma CollectOne(
    outputs: seq<Option<int>>, p: nat, total: nat, checkpoints: map<RowId, int>, read: set<RowId>, child: RowId)
    requires Collected(outputs, p, total, checkpoints, read)
    requires child.Child? && child.mapId == p && child.index < total && child in checkpoints
    ensures Collected(outputs[child.index := Some(checkpoints[child])], p, total, checkpoints, read + {child})
  {
  }

  lemma AllCollected(t: Tables, outputs: seq<Option<int>>, p: nat, total: nat, children: set<RowId>)
    requires Collected(outputs, p, total, t.checkpoints, children)
    requires forall id :: id in children <==> id in t.rows && id in t.checkpoints && id.Child? && id.mapId == p
    ensures outputs == JoinOutputs(t, p, total)
  {
    forall i | 0 <= i < total
      ensures i in ReadyChildren(t, p) <==> Child(p, i) in children
    {
    }
  }

  lemma ReadyChildrenFit(t: Tables, claimed: Tables, p: nat)
    requires RowsInv(t) && Top(p) in t.rows && claimed == Claimed(t, Top(p)) && p in t.mapNodes
    ensures forall i :: i in ReadyChildren(claimed, p) ==> i < t.mapNodes[p].total
  {
    forall i | i in ReadyChildren(claimed, p)
      ensures i < t.mapNodes[p].total
    {
      assert Child(p, i) in t.rows;
    }
  }

  /** Two states that agree on the rows of map `p`. */
  ghost predicate SameMap(t: Tables, u: Tables, p: nat) {
    && (Top(p) in t.rows <==> Top(p) in u.rows) && (Top(p) in t.rows ==> t.rows[Top(p)] == u.rows[Top(p)])
    && (forall i :: Child(p, i) in t.rows <==> Child(p, i) in u.rows)
    && (forall i :: Child(p, i) in t.rows ==> t.rows[Child(p, i)] == u.rows[Child(p, i)])
    && (p in t.mapNodes <==> p in u.mapNodes) && (p in t.mapNodes ==> t.mapNodes[p] == u.mapNodes[p])
    && (p in t.results <==> p in u.results) && (p in t.results ==> t.results[p] == u.results[p])
  }

  lemma SameMapInv(t: Tables, u: Tables, p: nat)
    requires Top(p) in t.rows && t.rows[Top(p)].input.MapInput? && MapInv(t, p) && SameMap(t, u, p)
    ensures MapInv(u, p)
  {
    if p in t.mapNodes {
      assert DoneChildren(t.rows, p, t.mapNodes[p].total) == DoneChildren(u.rows, p, t.mapNodes[p].total);
    }
  }

  function MapOf(id: RowId): nat {
    if id.Top? then id.n else id.mapId
  }

  function Below(n: nat): (s: set<nat>)
    ensures |s| == n && forall i: nat :: i in s <==> i < n
  {
    if n == 0 then {} else Below(n - 1) + {n - 1}
  }

  /** All children are done exactly when as many are done as there are. */
  lemma AllChildrenDone(rows: map<RowId, Row>, p: nat, total: nat)
    ensures |DoneChildren(rows, p, total)| <= total
    ensures |DoneChildren(rows, p, total)| == total <==>
            forall i: nat :: i < total ==> Child(p, i) in rows && rows[Child(p, i)].status == Done
  {
    var all := Below(total);
    var done := DoneChildren(rows, p, total);
    assert all == done + (all - done);
    if |done| == total {
      forall i: nat | i < total
        ensures Child(p, i) in rows && rows[Child(p, i)].status == Done
      {
        assert |all - done| == 0 && i in all;
        assert i in done;
      }
    }
    if forall i: nat :: i < total ==> Child(p, i) in rows && rows[Child(p, i)].status == Done {
      assert done == all;
    }
  }

  lemma QueuedChildrenAreReady(t: Tables, p: nat)
    requires OwnedInv(t) && CheckpointsInv(t) && p in t.mapNodes
    requires forall i: nat :: i < t.mapNodes[p].total ==> Child(p, i) in t.rows && t.rows[Child(p, i)].status == Done
    ensures ReadyChildren(Claimed(t, Top(p)), p) == Below(t.mapNodes[p].total)
  {
    var c := Claimed(t, Top(p));
    forall i: nat
      ensures i in ReadyChildren(c, p) <==> i < t.mapNodes[p].total
    {
      if i < t.mapNodes[p].total {
        assert Child(p, i) in c.rows && Child(p, i) in c.checkpoints;
      }
      if i in ReadyChildren(c, p) {
        assert Child(p, i) in t.rows;
      }
    }
  }

  lemma QueuedChildrenAreDone(t: Tables, p: nat)
    requires Inv(t) && p in t.mapNodes && t.rows[Top(p)].status == Queued
    ensures t.mapNodes[p].total == |t.mapNodes[p].source|
    ensures forall i: nat :: i < t.mapNodes[p].total ==>
              Child(p, i) in t.rows && t.rows[Child(p, i)].status == Done
              && t.rows[Child(p, i)].input == StepInput(t.mapNodes[p].source[i])
  {
    assert MapInv(t, p);
    AllChildrenDone(t.rows, p, t.mapNodes[p].total);
  }

  /** A join that is claimed finds every child's output, so it never throws. */
  lemma QueuedJoinIsReady(t: Tables, p: nat)
    requires Inv(t) && p in t.mapNodes && t.rows[Top(p)].status == Queued
    ensures |ReadyChildren(Claimed(t, Top(p)), p)| == t.mapNodes[p].total
    ensures JoinOutputs(Claimed(t, Top(p)), p, t.mapNodes[p].total) == AllEnriched(t.mapNodes[p].source)
  {
    QueuedChildrenAreDone(t, p);
    QueuedChildrenAreReady(t, p);
    JoinOfAll(t, Claimed(t, Top(p)), p, t.mapNodes[p].source);
  }

  lemma JoinOfAll(t: Tables, claimed: Tables, p: nat, source: seq<int>)
    requires CheckpointsInv(t) && claimed.checkpoints == t.checkpoints && ReadyChildren(claimed, p) == Below(|source|)
    requires forall i: nat :: i < |source| ==>
               && Child(p, i) in t.rows && t.rows[Child(p, i)].status == Done
               && t.rows[Child(p, i)].input == StepInput(source[i])
    ensures JoinOutputs(claimed, p, |source|) == AllEnriched(source)
  {
    forall i: nat | i < |source|
      ensures i in Below(|source|) && t.checkpoints[Child(p, i)] == EnrichOne(source[i])
    {
      assert Child(p, i) in t.checkpoints;
    }
  }

  /** The tables after fan-out, row by row. */
  ghost predicate FannedFrom(t: Tables, p: nat, source: seq<int>, failIndices: map<nat, nat>, u: Tables)
    requires Top(p) in t.rows
  {
    && u.mapNodes == t.mapNodes[p := MapNode(|source|, 0, source)]
    && u.checkpoints == t.checkpoints && u.results == t.results
    && (forall id :: id in u.rows <==> id in t.rows || IsNewChild(id, p, |source|))
    && (forall id :: id in u.rows ==>
          u.rows[id] == if IsNewChild(id, p, |source|) then ChildRow(source, failIndices, id.index)
                        else if id == Top(p)
                        then t.rows[id].(status := AwaitingChildren, attempts := t.rows[id].attempts + 1)
                        else t.rows[id])
  }

  lemma FanOutRows(t: Tables, p: nat, source: seq<int>, failIndices: map<nat, nat>)
    requires Top(p) in t.rows
    ensures FannedFrom(t, p, source, failIndices, FannedOut(Claimed(t, Top(p)), p, source, failIndices))
  {
    var c := Claimed(t, Top(p));
    var u := FannedOut(c, p, source, failIndices);
    forall id
      ensures id in u.rows <==> id in t.rows || IsNewChild(id, p, |source|)
      ensures id in u.rows ==>
          u.rows[id] == if IsNewChild(id, p, |source|) then ChildRow(source, failIndices, id.index)
                        else if id == Top(p)
                        then t.rows[id].(status := AwaitingChildren, attempts := t.rows[id].attempts + 1)
                        else t.rows[id]
    {
      WithChildrenRow(c.rows, p, source, failIndices, |source|, id);
    }
  }

  lemma FannedFromOwned(t: Tables, p: nat, source: seq<int>, failIndices: map<nat, nat>, u: Tables)
    requires OwnedInv(t) && Top(p) in t.rows && t.rows[Top(p)].input.MapInput? && p !in t.mapNodes
    requires FannedFrom(t, p, source, failIndices, u)
    ensures OwnedInv(u)
  {
    forall q: nat, i: nat | Child(q, i) in u.rows
      ensures q in u.mapNodes && i < u.mapNodes[q].total && u.rows[Child(q, i)].input.StepInput?
    {
      assert Child(q, i) in t.rows || IsNewChild(Child(q, i), p, |source|);
    }
  }

  lemma FannedFromStatuses(t: Tables, p: nat, source: seq<int>, failIndices: map<nat, nat>, u: Tables)
    requires StatusesInv(t) && Top(p) in t.rows && t.rows[Top(p)].input.MapInput?
    requires FannedFrom(t, p, source, failIndices, u)
    ensures StatusesInv(u)
  {
  }

  lemma FannedFromCheckpoints(t: Tables, p: nat, source: seq<int>, failIndices: map<nat, nat>, u: Tables)
    requires OwnedInv(t) && CheckpointsInv(t) && Top(p) in t.rows && t.rows[Top(p)].input.MapInput? && p !in t.mapNodes
    requires FannedFrom(t, p, source, failIndices, u)
    ensures CheckpointsInv(u)
  {
    forall id | id in u.rows && IsNewChild(id, p, |source|)
      ensures id !in t.rows && id !in t.checkpoints
    {
      assert id == Child(p, id.index);
    }
  }

  lemma FannedFromMapInv(t: Tables, p: nat, source: seq<int>, failIndices: map<nat, nat>, u: Tables)
    requires Top(p) in t.rows && t.rows[Top(p)].input == MapInput(Some(source), failIndices)
    requires t.rows[Top(p)].status == Queued && t.rows[Top(p)].attempts == 0 && p !in t.results
    requires FannedFrom(t, p, source, failIndices, u)
    ensures MapInv(u, p)
  {
    forall i: nat | i < |source|
      ensures Child(p, i) in u.rows && u.rows[Child(p, i)] == ChildRow(source, failIndices, i)
    {
      assert IsNewChild(Child(p, i), p, |source|);
    }
    assert DoneChildren(u.rows, p, |source|) == {};
  }

  lemma FanOutInv(t: Tables, p: nat)
    requires Inv(t) && Top(p) in t.rows && t.rows[Top(p)].input.MapInput?
    requires p !in t.mapNodes && Process(t, Top(p)).Some?
    ensures RowsInv(Process(t, Top(p)).value) && MapInv(Process(t, Top(p)).value, p)
  {
    var input := t.rows[Top(p)].input;
    assert MapInv(t, p);
    FanOutRows(t, p, input.source.value, input.failIndices);
    FannedFromOwned(t, p, input.source.value, input.failIndices, Process(t, Top(p)).value);
    FannedFromStatuses(t, p, input.source.value, input.failIndices, Process(t, Top(p)).value);
    FannedFromCheckpoints(t, p, input.source.value, input.failIndices, Process(t, Top(p)).value);
    FannedFromMapInv(t, p, input.source.value, input.failIndices, Process(t, Top(p)).value);
  }

  /** The tables after a join. */
  ghost predicate JoinedFrom(t: Tables, p: nat, u: Tables)
    requires Top(p) in t.rows && p in t.mapNodes
  {
    && u.rows == t.rows[Top(p) := t.rows[Top(p)].(status := Done, attempts := t.rows[Top(p)].attempts + 1)]
    && u.mapNodes == t.mapNodes && u.checkpoints == t.checkpoints
    && (p !in t.results ==> u.results == t.results[p := AllEnriched(t.mapNodes[p].source)])
    && (p in t.results ==> u.results == t.results)
  }

  lemma JoinedFromRowsInv(t: Tables, p: nat, u: Tables)
    requires RowsInv(t) && p in t.mapNodes && Top(p) in t.rows && JoinedFrom(t, p, u)
    ensures OwnedInv(u)
    ensures StatusesInv(u) && CheckpointsInv(u)
  {
    assert t.rows[Top(p)].input.MapInput?;
    forall id | id in u.rows
      ensures id in t.rows && u.rows[id].input == t.rows[id].input && (id != Top(p) ==> u.rows[id] == t.rows[id])
    {
    }
  }

  lemma JoinedFromMapInv(t: Tables, p: nat, u: Tables)
    requires p in t.mapNodes && Top(p) in t.rows && t.rows[Top(p)].input.MapInput? && MapInv(t, p)
    requires t.rows[Top(p)].status == Queued && JoinedFrom(t, p, u)
    ensures MapInv(u, p)
  {
    assert DoneChildren(u.rows, p, u.mapNodes[p].total) == DoneChildren(t.rows, p, u.mapNodes[p].total);
  }

  lemma JoinRows(t: Tables, p: nat)
    requires Inv(t) && p in t.mapNodes && t.rows[Top(p)].status == Queued
    ensures JoinedFrom(t, p, Joined(Claimed(t, Top(p)), p, t.mapNodes[p].total))
  {
    QueuedJoinIsReady(t, p);
    JoinWrites(t, p, t.mapNodes[p].total);
  }

  lemma JoinWrites(t: Tables, p: nat, total: nat)
    requires Top(p) in t.rows
    ensures var u := Joined(Claimed(t, Top(p)), p, total);
            && u.rows == t.rows[Top(p) := t.rows[Top(p)].(status := Done, attempts := t.rows[Top(p)].attempts + 1)]
            && u.mapNodes == t.mapNodes && u.checkpoints == t.checkpoints
            && u.results == if p in t.results then t.results
                            else t.results[p := JoinOutputs(Claimed(t, Top(p)), p, total)]
  {
  }

  lemma JoinInv(t: Tables, p: nat)
    requires Inv(t) && p in t.mapNodes && t.rows[Top(p)].status == Queued
    requires Process(t, Top(p)).Some?
    ensures RowsInv(Process(t, Top(p)).value) && MapInv(Process(t, Top(p)).value, p)
  {
    var u := Process(t, Top(p)).value;
    assert MapInv(t, p);
    JoinRows(t, p);
    JoinedFromRowsInv(t, p, u);
    JoinedFromMapInv(t, p, u);
  }

  /** The tables after a failed attempt: one row is queued again, owing one failure less. */
  ghost predicate RetriedFrom(t: Tables, id: RowId, u: Tables)
    requires id in t.rows && t.rows[id].failRemaining > 0
  {
    && u.rows == t.rows[id := t.rows[id].(status := Queued, attempts := t.rows[id].attempts + 1,
                                          failRemaining := t.rows[id].failRemaining - 1)]
    && u.mapNodes == t.mapNodes && u.checkpoints == t.checkpoints && u.results == t.results
  }

  lemma RetryRows(t: Tables, id: RowId)
    requires id in t.rows && t.rows[id].failRemaining > 0
    ensures RetriedFrom(t, id, Retried(Claimed(t, id), id))
  {
  }

  lemma RetriedFromOwned(t: Tables, id: RowId, u: Tables)
    requires OwnedInv(t) && id in t.rows && t.rows[id].failRemaining > 0 && RetriedFrom(t, id, u)
    ensures OwnedInv(u)
  {
  }

  lemma RetriedFromStatuses(t: Tables, id: RowId, u: Tables)
    requires StatusesInv(t) && CheckpointsInv(t)
    requires id in t.rows && t.rows[id].failRemaining > 0 && t.rows[id].status == Queued && RetriedFrom(t, id, u)
    ensures StatusesInv(u) && CheckpointsInv(u)
  {
  }

  lemma RetriedFromMapInv(t: Tables, p: nat, i: nat, u: Tables)
    requires Top(p) in t.rows && t.rows[Top(p)].input.MapInput? && MapInv(t, p) && p in t.mapNodes
    requires Child(p, i) in t.rows && t.rows[Child(p, i)].failRemaining > 0 && t.rows[Child(p, i)].status == Queued
    requires RetriedFrom(t, Child(p, i), u)
    ensures MapInv(u, p)
  {
    assert DoneChildren(u.rows, p, u.mapNodes[p].total) == DoneChildren(t.rows, p, u.mapNodes[p].total);
  }

  lemma RetriedInv(t: Tables, id: RowId, u: Tables)
    requires Inv(t) && id in t.rows && t.rows[id].input.StepInput? && t.rows[id].status == Queued
    requires t.rows[id].failRemaining > 0 && u == Retried(Claimed(t, id), id)
    ensures RowsInv(u)
    ensures id.Child? ==> Top(id.mapId) in u.rows && u.rows[Top(id.mapId)].input.MapInput? && MapInv(u, id.mapId)
  {
    RetryRows(t, id);
    RetriedFromOwned(t, id, u);
    RetriedFromStatuses(t, id, u);
    if id.Child? {
      assert Child(id.mapId, id.index) in t.rows;
      RetriedFromMapInv(t, id.mapId, id.index, u);
    }
  }

  /** A completed step, row by row; `requeue` tells whether it was its map's last child. */
  ghost predicate CompletedFrom(t: Tables, id: RowId, requeue: bool, u: Tables)
    requires id in t.rows && t.rows[id].input.StepInput?
  {
    && u.rows.Keys == t.rows.Keys
    && u.rows[id] == t.rows[id].(status := Done, attempts := t.rows[id].attempts + 1)
    && (forall o :: o in t.rows && o != id ==>
          u.rows[o] == if requeue && id.Child? && o == Top(id.mapId) then t.rows[o].(status := Queued) else t.rows[o])
    && u.checkpoints == t.checkpoints[id := EnrichOne(t.rows[id].input.item)]
    && u.results == t.results
    && (if id.Child? && id.mapId in t.mapNodes
        then var m := t.mapNodes[id.mapId];
             && u.mapNodes == t.mapNodes[id.mapId := m.(completed := m.completed + 1)]
             && (requeue <==> m.completed + 1 == m.total)
        else u.mapNodes == t.mapNodes && !requeue)
  }

  lemma CompleteTopRows(t: Tables, n: nat)
    requires CheckpointsInv(t) && Top(n) in t.rows && t.rows[Top(n)].input.StepInput?
    requires t.rows[Top(n)].status == Queued && t.rows[Top(n)].failRemaining == 0
    ensures CompletedFrom(t, Top(n), false, Process(t, Top(n)).value)
  {
    StepDoneRows(t, Top(n));
  }

  lemma CompleteChildRows(t: Tables, p: nat, i: nat)
    requires OwnedInv(t) && CheckpointsInv(t) && Child(p, i) in t.rows && t.rows[Child(p, i)].input.StepInput?
    requires t.rows[Child(p, i)].status == Queued && t.rows[Child(p, i)].failRemaining == 0
    ensures p in t.mapNodes
    ensures CompletedFrom(t, Child(p, i), t.mapNodes[p].completed + 1 == t.mapNodes[p].total,
                          Process(t, Child(p, i)).value)
  {
    assert Top(p) in t.rows;
    var id := Child(p, i);
    var done := t.(rows := t.rows[id := t.rows[id].(status := Done, attempts := t.rows[id].attempts + 1)],
                   checkpoints := t.checkpoints[id := EnrichOne(t.rows[id].input.item)]);
    StepDoneRows(t, id);
    BumpedRows(done, p);
    CountedIsCompleted(t, p, i, done, Bumped(done, p));
  }

  lemma CountedIsCompleted(t: Tables, p: nat, i: nat, done: Tables, u: Tables)
    requires Top(p) in t.rows && p in t.mapNodes && Child(p, i) in t.rows && t.rows[Child(p, i)].input.StepInput?
    requires done.rows == t.rows[Child(p, i) :=
               t.rows[Child(p, i)].(status := Done, attempts := t.rows[Child(p, i)].attempts + 1)]
    requires u.checkpoints == t.checkpoints[Child(p, i) := EnrichOne(t.rows[Child(p, i)].input.item)]
    requires u.results == t.results
    requires u.mapNodes == t.mapNodes[p := t.mapNodes[p].(completed := t.mapNodes[p].completed + 1)]
    requires u.rows == if t.mapNodes[p].completed + 1 == t.mapNodes[p].total then SetStatus(done.rows, Top(p), Queued)
                       else done.rows
    ensures CompletedFrom(t, Child(p, i), t.mapNodes[p].completed + 1 == t.mapNodes[p].total, u)
  {
  }

  lemma BumpedRows(t: Tables, p: nat)
    requires p in t.mapNodes && Top(p) in t.rows
    ensures var m, u := t.mapNodes[p], Bumped(t, p);
            && u == t.(rows := u.rows, mapNodes := t.mapNodes[p := m.(completed := m.completed + 1)])
            && u.rows == if m.completed + 1 == m.total then SetStatus(t.rows, Top(p), Queued) else t.rows
  {
  }

  /** A completed step before its map counts it. */
  lemma StepDoneRows(t: Tables, id: RowId)
    requires CheckpointsInv(t) && id in t.rows && t.rows[id].input.StepInput? && t.rows[id].status == Queued
    requires t.rows[id].failRemaining == 0
    ensures var done := t.(rows := t.rows[id := t.rows[id].(status := Done, attempts := t.rows[id].attempts + 1)],
                           checkpoints := t.checkpoints[id := EnrichOne(t.rows[id].input.item)]);
            Process(t, id) == Some(if id.Child? then Bumped(done, id.mapId) else done)
  {
    assert id !in t.checkpoints;
    assert SetStatus(Claimed(t, id).rows, id, Done) ==
           t.rows[id := t.rows[id].(status := Done, attempts := t.rows[id].attempts + 1)];
  }

  lemma CompleteRows(t: Tables, id: RowId) returns (requeue: bool)
    requires RowsInv(t) && id in t.rows && t.rows[id].input.StepInput? && t.rows[id].status == Queued
    requires t.rows[id].failRemaining == 0
    ensures CompletedFrom(t, id, requeue, Process(t, id).value)
  {
    if id.Top? {
      CompleteTopRows(t, id.n);
      requeue := false;
    } else {
      CompleteChildRows(t, id.mapId, id.index);
      requeue := t.mapNodes[id.mapId].completed + 1 == t.mapNodes[id.mapId].total;
    }
  }

  lemma CompletedFromOwned(t: Tables, id: RowId, requeue: bool, u: Tables)
    requires OwnedInv(t) && id in t.rows && t.rows[id].input.StepInput? && CompletedFrom(t, id, requeue, u)
    ensures OwnedInv(u)
  {
    assert forall o :: o in t.rows ==> u.rows[o].input == t.rows[o].input;
    forall p: nat, i: nat | Child(p, i) in u.rows
      ensures p in u.mapNodes && i < u.mapNodes[p].total && u.rows[Child(p, i)].input.StepInput?
    {
      assert Child(p, i) in t.rows;
    }
  }

  lemma CompletedFromStatuses(t: Tables, id: RowId, requeue: bool, u: Tables)
    requires StatusesInv(t) && id in t.rows && t.rows[id].input.StepInput? && CompletedFrom(t, id, requeue, u)
    ensures StatusesInv(u)
  {
  }

  lemma CompletedFromCheckpoints(t: Tables, id: RowId, requeue: bool, u: Tables)
    requires OwnedInv(t) && CheckpointsInv(t) && id in t.rows && t.rows[id].input.StepInput?
    requires CompletedFrom(t, id, requeue, u)
    ensures CheckpointsInv(u)
  {
    forall o | o in t.rows && o != id
      ensures u.rows[o].input == t.rows[o].input && (u.rows[o].input.StepInput? ==> u.rows[o] == t.rows[o])
    {
      if id.Child? && o == Top(id.mapId) {
        assert Child(id.mapId, id.index) in t.rows;
      }
    }
  }

  /** One more done child: each child's row, and the count. */
  lemma OneMoreDone(
    rows: map<RowId, Row>, after: map<RowId, Row>, p: nat, i: nat, m: MapNode, failIndices: map<nat, nat>)
    requires ChildrenInv(rows, p, m, failIndices) && i < m.total
    requires rows[Child(p, i)].status == Queued && rows[Child(p, i)].failRemaining == 0
    requires Child(p, i) in after
    requires after[Child(p, i)] == rows[Child(p, i)].(status := Done, attempts := rows[Child(p, i)].attempts + 1)
    requires forall k: nat :: k < m.total && k != i ==> Child(p, k) in after && after[Child(p, k)] == rows[Child(p, k)]
    ensures ChildrenInv(after, p, m.(completed := m.completed + 1), failIndices)
  {
    forall k: nat | k < m.total
      ensures Child(p, k) in after && ChildInv(after[Child(p, k)], m.source[k], Failures(failIndices, k))
    {
      assert ChildInv(rows[Child(p, k)], m.source[k], Failures(failIndices, k));
    }
    var before := DoneChildren(rows, p, m.total);
    assert DoneChildren(after, p, m.total) == before + {i};
    assert i !in before;
  }

  lemma CompletedMapInv(t: Tables, p: nat, i: nat, requeue: bool, u: Tables)
    requires Inv(t) && Child(p, i) in t.rows && t.rows[Child(p, i)].status == Queued
    requires t.rows[Child(p, i)].failRemaining == 0
    requires CompletedFrom(t, Child(p, i), requeue, u)
    ensures MapInv(u, p)
  {
    assert MapInv(t, p);
    OneMoreDone(t.rows, u.rows, p, i, t.mapNodes[p], t.rows[Top(p)].input.failIndices);
    QueuedChildIsMissing(t, p, i);
    OneMoreParent(t, u, p);
  }

  lemma QueuedChildIsMissing(t: Tables, p: nat, i: nat)
    requires OwnedInv(t) && Child(p, i) in t.rows && t.rows[Child(p, i)].status == Queued
    requires t.mapNodes[p].completed == |DoneChildren(t.rows, p, t.mapNodes[p].total)|
    ensures t.mapNodes[p].completed < t.mapNodes[p].total
  {
    AllChildrenDone(t.rows, p, t.mapNodes[p].total);
  }

  /** The parent of a child just counted. */
  lemma OneMoreParent(t: Tables, u: Tables, p: nat)
    requires Top(p) in t.rows && Top(p) in u.rows && p in t.mapNodes && t.mapNodes[p].completed < t.mapNodes[p].total
    requires ParentInv(t, t.rows[Top(p)], p, t.mapNodes[p]) && u.results == t.results
    requires u.rows[Top(p)] == if t.mapNodes[p].completed + 1 == t.mapNodes[p].total
                               then t.rows[Top(p)].(status := Queued) else t.rows[Top(p)]
    ensures ParentInv(u, u.rows[Top(p)], p, t.mapNodes[p].(completed := t.mapNodes[p].completed + 1))
  {
  }

  lemma FannedFromOthers(t: Tables, p: nat, source: seq<int>, failIndices: map<nat, nat>, u: Tables, q: nat)
    requires Top(p) in t.rows && FannedFrom(t, p, source, failIndices, u) && q != p
    ensures SameMap(t, u, q)
  {
    assert forall i: nat :: !IsNewChild(Child(q, i), p, |source|);
  }

  lemma CompletedFromOthers(t: Tables, id: RowId, requeue: bool, u: Tables, q: nat)
    requires id in t.rows && t.rows[id].input.StepInput? && CompletedFrom(t, id, requeue, u) && q != MapOf(id)
    ensures SameMap(t, u, q)
  {
  }

  lemma JoinedOthers(t: Tables, p: nat, total: nat, q: nat)
    requires Top(p) in t.rows && q != p
    ensures SameMap(t, Joined(Claimed(t, Top(p)), p, total), q)
  {
  }

  lemma RetriedFromOthers(t: Tables, id: RowId, u: Tables, q: nat)
    requires id in t.rows && t.rows[id].failRemaining > 0 && RetriedFrom(t, id, u) && q != MapOf(id)
    ensures SameMap(t, u, q)
  {
  }

  /** A transaction touches one map. */
  lemma ProcessOthers(t: Tables, id: RowId, q: nat)
    requires RowsInv(t) && id in t.rows && Claimable(t.rows[id]) && Process(t, id).Some? && q != MapOf(id)
    ensures SameMap(t, Process(t, id).value, q)
  {
    var row, u := t.rows[id], Process(t, id).value;
    if row.input.MapInput? {
      if id.n !in t.mapNodes {
        FanOutRows(t, id.n, row.input.source.value, row.input.failIndices);
        FannedFromOthers(t, id.n, row.input.source.value, row.input.failIndices, u, q);
      } else {
        JoinedOthers(t, id.n, t.mapNodes[id.n].total, q);
      }
    } else if row.failRemaining > 0 {
      RetryRows(t, id);
      RetriedFromOthers(t, id, u, q);
    } else {
      var requeue := CompleteRows(t, id);
      CompletedFromOthers(t, id, requeue, u, q);
    }
  }

  lemma ProcessInv(t: Tables, id: RowId)
    requires Inv(t) && id in t.rows && Claimable(t.rows[id]) && Process(t, id).Some?
    ensures Inv(Process(t, id).value)
  {
    var u := Process(t, id).value;
    if t.rows[id].input.StepInput? {
      if t.rows[id].failRemaining > 0 {
        RetriedInv(t, id, u);
      } else {
        var requeue := CompleteRows(t, id);
        CompletedFromOwned(t, id, requeue, u);
        CompletedFromStatuses(t, id, requeue, u);
        CompletedFromCheckpoints(t, id, requeue, u);
        if id.Child? {
          CompletedMapInv(t, id.mapId, id.index, requeue, u);
        }
      }
    } else if id.n !in t.mapNodes {
      FanOutInv(t, id.n);
    } else {
      JoinInv(t, id.n);
    }
    forall p | Top(p) in u.rows && u.rows[Top(p)].input.MapInput? && p != MapOf(id)
      ensures MapInv(u, p)
    {
      ProcessOthers(t, id, p);
      SameMapInv(t, u, p);
    }
  }

  // ---- whole histories ---------------------------------------------------------------------

  /** A row is submitted, or a claimed row is handled and its transaction commits. */
  datatype Event = Submit(n: nat, input: Input, failRemaining: nat) | Handle(id: RowId)

  ghost predicate Enabled(t: Tables, ev: Event) {
    match ev
    case Submit(n, _, _) => Top(n) !in t.rows
    case Handle(id) => id in t.rows && Claimable(t.rows[id]) && Process(t, id).Some?
  }

  function Apply(t: Tables, ev: Event): Tables
    requires ev.Handle? ==> ev.id in t.rows && Process(t, ev.id).Some?
  {
    match ev
    case Submit(n, input, failRemaining) => t.(rows := t.rows[Top(n) := Row(input, Queued, 0, failRemaining)])
    case Handle(id) => Process(t, id).value
  }

  ghost predicate IsHistory(states: seq<Tables>, events: seq<Event>) {
    && |states| == |events| + 1
    && states[0] == Tables(map[], map[], map[], map[], map[])
    && forall i {:trigger events[i]} :: 0 <= i < |events| ==>
         Enabled(states[i], events[i]) && states[i + 1] == Apply(states[i], events[i])
  }

  lemma SubmitOthers(t: Tables, n: nat, row: Row, q: nat)
    requires q != n
    ensures SameMap(t, t.(rows := t.rows[Top(n) := row]), q)
  {
  }

  lemma SubmitInv(t: Tables, ev: Event)
    requires Inv(t) && ev.Submit? && Enabled(t, ev)
    ensures Inv(Apply(t, ev))
  {
    var u := Apply(t, ev);
    assert ev.n !in t.mapNodes && ev.n !in t.results;
    forall p | Top(p) in u.rows && u.rows[Top(p)].input.MapInput?
      ensures MapInv(u, p)
    {
      if p != ev.n {
        SubmitOthers(t, ev.n, u.rows[Top(ev.n)], p);
        SameMapInv(t, u, p);
      }
    }
  }

  lemma {:induction false} HistoryInv(states: seq<Tables>, events: seq<Event>, i: nat)
    requires IsHistory(states, events) && i < |states|
    ensures Inv(states[i])
  {
    if i > 0 {
      HistoryInv(states, events, i - 1);
      if events[i - 1].Submit? {
        SubmitInv(states[i - 1], events[i - 1]);
      } else {
        ProcessInv(states[i - 1], events[i - 1].id);
      }
    }
  }

  ghost predicate IsMap(t: Tables, p: nat) {
    Top(p) in t.rows && t.rows[Top(p)].input.MapInput?
  }

  /** An event leaves other maps alone. */
  lemma ApplyOthers(t: Tables, ev: Event, q: nat)
    requires Inv(t) && Enabled(t, ev) && (if ev.Submit? then q != ev.n else q != MapOf(ev.id))
    ensures SameMap(t, Apply(t, ev), q)
  {
    if ev.Submit? {
      SubmitOthers(t, ev.n, Row(ev.input, Queued, 0, ev.failRemaining), q);
    } else {
      ProcessOthers(t, ev.id, q);
    }
  }

  /** A claimed row's transaction rolls back only when a map has no source array; the
      join's missing-children error is never raised. */
  lemma RollbackOnlyWithoutSource(states: seq<Tables>, events: seq<Event>, i: nat, id: RowId)
    requires IsHistory(states, events) && i < |states|
    requires id in states[i].rows && Claimable(states[i].rows[id])
    ensures Process(states[i], id).None? <==>
              states[i].rows[id].input.MapInput? && states[i].rows[id].input.source.None?
  {
    var t := states[i];
    HistoryInv(states, events, i);
    if t.rows[id].input.MapInput? {
      assert id.Top?;
      assert MapInv(t, id.n);
      if id.n in t.mapNodes {
        QueuedJoinIsReady(t, id.n);
      }
    }
  }

  // ---- the counter and the one re-queue -------------------------------------------------------

  /** Not fanned out, parked, queued for its join, done. */
  ghost function Stage(t: Tables, p: nat): nat
    requires IsMap(t, p)
  {
    if p !in t.mapNodes then 0
    else match t.rows[Top(p)].status
         case Done => 3
         case Queued => 2
         case _ => 1
  }

  lemma StageSame(t: Tables, u: Tables, p: nat)
    requires IsMap(t, p) && SameMap(t, u, p)
    ensures IsMap(u, p) && Stage(u, p) == Stage(t, p)
  {
  }

  lemma StageOfTopStep(t: Tables, p: nat)
    requires Inv(t) && IsMap(t, p) && Claimable(t.rows[Top(p)]) && Process(t, Top(p)).Some?
    ensures IsMap(Process(t, Top(p)).value, p)
    ensures Stage(Process(t, Top(p)).value, p) == Stage(t, p) + 1
  {
    assert MapInv(t, p);
    if p !in t.mapNodes {
      FanOutRows(t, p, t.rows[Top(p)].input.source.value, t.rows[Top(p)].input.failIndices);
      StageOfFanOut(t, p, t.rows[Top(p)].input.source.value, t.rows[Top(p)].input.failIndices,
                    Process(t, Top(p)).value);
    } else {
      StageOfJoin(t, p);
    }
  }

  lemma StageOfFanOut(t: Tables, p: nat, source: seq<int>, failIndices: map<nat, nat>, u: Tables)
    requires IsMap(t, p) && p !in t.mapNodes && FannedFrom(t, p, source, failIndices, u)
    ensures IsMap(u, p) && Stage(u, p) == Stage(t, p) + 1
  {
  }

  lemma StageOfJoin(t: Tables, p: nat)
    requires IsMap(t, p) && p in t.mapNodes && t.rows[Top(p)].status == Queued
    ensures var u := Joined(Claimed(t, Top(p)), p, t.mapNodes[p].total);
            IsMap(u, p) && Stage(u, p) == Stage(t, p) + 1
  {
  }

  lemma StageStep(t: Tables, ev: Event, p: nat)
    requires Inv(t) && Enabled(t, ev) && IsMap(t, p)
    ensures IsMap(Apply(t, ev), p)
    ensures Stage(t, p) <= Stage(Apply(t, ev), p) <= Stage(t, p) + 1
  {
    if ev.Submit? || MapOf(ev.id) != p {
      ApplyOthers(t, ev, p);
      StageSame(t, Apply(t, ev), p);
    } else if ev.id.Child? {
      StageOfChildStep(t, ev.id, p);
    } else {
      StageOfTopStep(t, p);
    }
  }

  lemma StageOfChildStep(t: Tables, id: RowId, p: nat)
    requires Inv(t) && IsMap(t, p) && id.Child? && id.mapId == p
    requires id in t.rows && Claimable(t.rows[id]) && Process(t, id).Some?
    ensures IsMap(Process(t, id).value, p) && Stage(t, p) == 1 && 1 <= Stage(Process(t, id).value, p) <= 2
  {
    assert MapInv(t, p);
    AllChildrenDone(t.rows, p, t.mapNodes[p].total);
    assert t.rows[Child(p, id.index)].status == Queued;
    if t.rows[id].failRemaining == 0 {
      var requeue := CompleteRows(t, id);
    }
  }

  lemma {:induction false} StageMonotone(states: seq<Tables>, events: seq<Event>, p: nat, i: nat, j: nat)
    requires IsHistory(states, events) && i <= j < |states| && IsMap(states[i], p)
    ensures IsMap(states[j], p) && Stage(states[i], p) <= Stage(states[j], p)
    decreases j - i
  {
    if i < j {
      StageMonotone(states, events, p, i, j - 1);
      StageGrows(states, events, p, j - 1);
    }
  }

  lemma StageGrows(states: seq<Tables>, events: seq<Event>, p: nat, j: nat)
    requires IsHistory(states, events) && j < |events| && IsMap(states[j], p)
    ensures IsMap(states[j + 1], p) && Stage(states[j], p) <= Stage(states[j + 1], p)
  {
    HistoryInv(states, events, j);
    assert Enabled(states[j], events[j]);
    StageStep(states[j], events[j], p);
  }

  /** Event `i` puts the parked map back into the queue. */
  ghost predicate Requeues(states: seq<Tables>, p: nat, i: nat) {
    && i + 1 < |states| && IsMap(states[i], p) && IsMap(states[i + 1], p)
    && Stage(states[i], p) == 1 && Stage(states[i + 1], p) == 2
  }

  /** The counter is the number of done children, and the map waits in the queue for its
      join, or is done, exactly when that is all of them and there is at least one. */
  lemma CounterCountsDoneChildren(states: seq<Tables>, events: seq<Event>, i: nat, p: nat)
    requires IsHistory(states, events) && i < |states| && p in states[i].mapNodes
    ensures IsMap(states[i], p)
    ensures var t, m := states[i], states[i].mapNodes[p];
            && m.completed == |DoneChildren(t.rows, p, m.total)|
            && (t.rows[Top(p)].status in {Queued, Done} <==>
                  m.total > 0 && forall k: nat :: k < m.total ==>
                    Child(p, k) in t.rows && t.rows[Child(p, k)].status == Done)
  {
    HistoryInv(states, events, i);
    assert MapInv(states[i], p);
    AllChildrenDone(states[i].rows, p, states[i].mapNodes[p].total);
  }

  /** A map is re-queued at most once. */
  lemma RequeuedOnce(states: seq<Tables>, events: seq<Event>, p: nat, i: nat, j: nat)
    requires IsHistory(states, events) && Requeues(states, p, i) && Requeues(states, p, j)
    ensures i == j
  {
    if i < j {
      StageMonotone(states, events, p, i + 1, j);
    } else if j < i {
      StageMonotone(states, events, p, j + 1, i);
    }
  }

  /** A map whose children are all done, or that is done itself, was re-queued. */
  lemma {:induction false} WasRequeued(states: seq<Tables>, events: seq<Event>, p: nat, j: nat) returns (i: nat)
    requires IsHistory(states, events) && j < |states| && IsMap(states[j], p) && Stage(states[j], p) >= 2
    ensures i < j && Requeues(states, p, i)
  {
    RequeuedBefore(states, events, p, j);
    if Requeues(states, p, j - 1) {
      i := j - 1;
    } else {
      i := WasRequeued(states, events, p, j - 1);
    }
  }

  lemma RequeuedBefore(states: seq<Tables>, events: seq<Event>, p: nat, j: nat)
    requires IsHistory(states, events) && j < |states| && IsMap(states[j], p) && Stage(states[j], p) >= 2
    ensures j > 0 && IsMap(states[j - 1], p)
    ensures Stage(states[j - 1], p) >= 2 || Requeues(states, p, j - 1)
  {
    assert j > 0;
    HistoryInv(states, events, j - 1);
    assert Enabled(states[j - 1], events[j - 1]);
    RequeueStep(states[j - 1], events[j - 1], p);
  }

  lemma RequeueStep(t: Tables, ev: Event, p: nat)
    requires Inv(t) && Enabled(t, ev) && IsMap(Apply(t, ev), p) && Stage(Apply(t, ev), p) >= 2
    ensures IsMap(t, p) && (Stage(t, p) >= 2 || (Stage(t, p) == 1 && Stage(Apply(t, ev), p) == 2))
  {
    if !IsMap(t, p) {
      NewMapStage(t, ev, p);
    } else {
      StageStep(t, ev, p);
    }
  }

  lemma NewMapStage(t: Tables, ev: Event, p: nat)
    requires Inv(t) && Enabled(t, ev) && !IsMap(t, p) && IsMap(Apply(t, ev), p)
    ensures ev.Submit? && Stage(Apply(t, ev), p) == 0
  {
    if ev.Handle? {
      if MapOf(ev.id) != p {
        ApplyOthers(t, ev, p);
      } else if ev.id.Top? {
        assert t.rows[ev.id].input.StepInput?;
        if t.rows[ev.id].failRemaining == 0 {
          var requeue := CompleteRows(t, ev.id);
        }
      }
    }
  }

  lemma EnrichedDoubles(source: seq<int>)
    ensures |AllEnriched(source)| == |source|
    ensures forall k :: 0 <= k < |source| ==> AllEnriched(source)[k] == Some(2 * source[k])
  {
  }

  /** The join puts the output of source item k at position k, whatever the order in which
      the children completed and however often each was retried. */
  lemma DoneMapIsOrdered(states: seq<Tables>, events: seq<Event>, i: nat, p: nat)
    requires IsHistory(states, events) && i < |states| && IsMap(states[i], p)
    requires states[i].rows[Top(p)].status == Done
    ensures states[i].rows[Top(p)].input.source.Some? && p in states[i].results
    ensures var source, outputs := states[i].rows[Top(p)].input.source.value, states[i].results[p];
            |outputs| == |source| && forall k :: 0 <= k < |source| ==> outputs[k] == Some(2 * source[k])
  {
    HistoryInv(states, events, i);
    assert MapInv(states[i], p);
    EnrichedDoubles(states[i].mapNodes[p].source);
  }

  // ---- how many claims a map takes -------------------------------------------------------------

  function Claims(events: seq<Event>, p: nat): nat {
    if events == [] then 0
    else
      var last := events[|events| - 1];
      Claims(events[..|events| - 1], p) + if last.Handle? && MapOf(last.id) == p then 1 else 0
  }

  ghost function Attempts(rows: map<RowId, Row>, p: nat, n: nat): nat {
    if n == 0 then 0
    else Attempts(rows, p, n - 1) + if Child(p, n - 1) in rows then rows[Child(p, n - 1)].attempts else 0
  }

  /** The committed attempts of a map row and its children. */
  ghost function Spent(t: Tables, p: nat): nat {
    if Top(p) !in t.rows || p !in t.mapNodes then 0
    else t.rows[Top(p)].attempts + Attempts(t.rows, p, t.mapNodes[p].total)
  }

  /** One try per item and one more per failure. */
  function Tries(failIndices: map<nat, nat>, n: nat): nat {
    if n == 0 then 0
    else Tries(failIndices, n - 1) + 1 + if n - 1 in failIndices then failIndices[n - 1] else 0
  }

  lemma {:induction false} SameAttempts(a: map<RowId, Row>, b: map<RowId, Row>, p: nat, n: nat)
    requires forall i: nat :: i < n ==> (Child(p, i) in a <==> Child(p, i) in b)
    requires forall i: nat :: i < n && Child(p, i) in a ==> a[Child(p, i)].attempts == b[Child(p, i)].attempts
    ensures Attempts(a, p, n) == Attempts(b, p, n)
  {
    if n > 0 {
      SameAttempts(a, b, p, n - 1);
    }
  }

  lemma {:induction false} OneMoreAttempt(a: map<RowId, Row>, b: map<RowId, Row>, p: nat, n: nat, k: nat)
    requires k < n && forall i: nat :: i < n ==> Child(p, i) in a && Child(p, i) in b
    requires forall i: nat :: i < n ==>
               b[Child(p, i)].attempts == a[Child(p, i)].attempts + if i == k then 1 else 0
    ensures Attempts(b, p, n) == Attempts(a, p, n) + 1
  {
    if k == n - 1 {
      SameAttempts(a, b, p, n - 1);
    } else {
      OneMoreAttempt(a, b, p, n - 1, k);
    }
  }

  lemma {:induction false} NoAttempts(rows: map<RowId, Row>, p: nat, n: nat)
    requires forall i: nat :: i < n && Child(p, i) in rows ==> rows[Child(p, i)].attempts == 0
    ensures Attempts(rows, p, n) == 0
  {
    if n > 0 {
      NoAttempts(rows, p, n - 1);
    }
  }

  lemma RetriedSpends(t: Tables, p: nat, k: nat, u: Tables)
    requires Top(p) in t.rows && p in t.mapNodes && k < t.mapNodes[p].total
    requires forall i: nat :: i < t.mapNodes[p].total ==> Child(p, i) in t.rows
    requires t.rows[Child(p, k)].failRemaining > 0 && RetriedFrom(t, Child(p, k), u)
    ensures Spent(u, p) == Spent(t, p) + 1
  {
    OneMoreAttempt(t.rows, u.rows, p, t.mapNodes[p].total, k);
  }

  lemma CompletedSpends(t: Tables, p: nat, k: nat, requeue: bool, u: Tables)
    requires Top(p) in t.rows && p in t.mapNodes && k < t.mapNodes[p].total
    requires forall i: nat :: i < t.mapNodes[p].total ==> Child(p, i) in t.rows
    requires t.rows[Child(p, k)].input.StepInput? && CompletedFrom(t, Child(p, k), requeue, u)
    ensures Spent(u, p) == Spent(t, p) + 1
  {
    OneMoreAttempt(t.rows, u.rows, p, t.mapNodes[p].total, k);
  }

  lemma ChildSpends(t: Tables, p: nat, k: nat)
    requires Inv(t) && IsMap(t, p) && Child(p, k) in t.rows && Claimable(t.rows[Child(p, k)])
    ensures Process(t, Child(p, k)).Some? && Spent(Process(t, Child(p, k)).value, p) == Spent(t, p) + 1
  {
    assert MapInv(t, p);
    var id := Child(p, k);
    if t.rows[id].failRemaining > 0 {
      RetryRows(t, id);
      RetriedSpends(t, p, k, Process(t, id).value);
    } else {
      var requeue := CompleteRows(t, id);
      CompletedSpends(t, p, k, requeue, Process(t, id).value);
    }
  }

  lemma FannedSpends(t: Tables, p: nat, source: seq<int>, failIndices: map<nat, nat>, u: Tables)
    requires Top(p) in t.rows && t.rows[Top(p)].attempts == 0 && p !in t.mapNodes
    requires FannedFrom(t, p, source, failIndices, u)
    ensures Spent(u, p) == Spent(t, p) + 1
  {
    forall i: nat | i < |source|
      ensures Child(p, i) in u.rows && u.rows[Child(p, i)].attempts == 0
    {
      assert IsNewChild(Child(p, i), p, |source|);
    }
    NoAttempts(u.rows, p, |source|);
  }

  lemma JoinedSpends(t: Tables, p: nat)
    requires Top(p) in t.rows && p in t.mapNodes
    ensures Spent(Joined(Claimed(t, Top(p)), p, t.mapNodes[p].total), p) == Spent(t, p) + 1
  {
    SameAttempts(t.rows, Joined(Claimed(t, Top(p)), p, t.mapNodes[p].total).rows, p, t.mapNodes[p].total);
  }

  lemma ParentSpends(t: Tables, p: nat)
    requires Inv(t) && IsMap(t, p) && Claimable(t.rows[Top(p)]) && Process(t, Top(p)).Some?
    ensures Spent(Process(t, Top(p)).value, p) == Spent(t, p) + 1
  {
    assert MapInv(t, p);
    var input, u := t.rows[Top(p)].input, Process(t, Top(p)).value;
    if p !in t.mapNodes {
      FanOutRows(t, p, input.source.value, input.failIndices);
      FannedSpends(t, p, input.source.value, input.failIndices, u);
    } else {
      JoinedSpends(t, p);
    }
  }

  /** Committed claims of a map and its children are the attempts its rows record. */
  lemma {:induction false} ClaimsAreSpent(states: seq<Tables>, events: seq<Event>, i: nat, p: nat)
    requires IsHistory(states, events) && i < |states| && (Top(p) !in states[i].rows || IsMap(states[i], p))
    ensures Claims(events[..i], p) == Spent(states[i], p)
  {
    if i > 0 {
      var t, u, ev := states[i - 1], states[i], events[i - 1];
      HistoryInv(states, events, i - 1);
      assert events[..i][..i - 1] == events[..i - 1];
      if (if ev.Submit? then p != ev.n else p != MapOf(ev.id)) {
        ApplyOthers(t, ev, p);
        ClaimsAreSpent(states, events, i - 1, p);
        if p in t.mapNodes {
          SameAttempts(t.rows, u.rows, p, t.mapNodes[p].total);
        }
      } else {
        HandledRowIsMap(t, ev, p);
        ClaimsAreSpent(states, events, i - 1, p);
        if ev.Handle? && ev.id.Child? {
          ChildSpends(t, p, ev.id.index);
        } else if ev.Handle? {
          ParentSpends(t, p);
        }
      }
    }
  }

  lemma HandledRowIsMap(t: Tables, ev: Event, p: nat)
    requires Inv(t) && Enabled(t, ev) && (Top(p) !in Apply(t, ev).rows || IsMap(Apply(t, ev), p))
    requires if ev.Submit? then p == ev.n else p == MapOf(ev.id)
    ensures if ev.Submit? then Top(p) !in t.rows else IsMap(t, p)
  {
    if ev.Handle? && ev.id.Top? && t.rows[ev.id].input.StepInput? && t.rows[ev.id].failRemaining == 0 {
      var requeue := CompleteRows(t, ev.id);
    }
  }

  lemma {:induction false} AttemptsBounded(
    rows: map<RowId, Row>, p: nat, source: seq<int>, failIndices: map<nat, nat>, n: nat)
    requires n <= |source|
    requires forall i: nat :: i < n ==>
               Child(p, i) in rows && ChildInv(rows[Child(p, i)], source[i], Failures(failIndices, i))
    ensures Attempts(rows, p, n) <= Tries(failIndices, n)
    ensures (forall i: nat :: i < n ==> rows[Child(p, i)].status == Done) ==>
              Attempts(rows, p, n) == Tries(failIndices, n)
  {
    if n > 0 {
      AttemptsBounded(rows, p, source, failIndices, n - 1);
      assert ChildInv(rows[Child(p, n - 1)], source[n - 1], Failures(failIndices, n - 1));
    }
  }

  /** A map over a non-empty source takes exactly two claims of its own and one more per
      item than the item fails, no fewer and no more: it is done exactly when they have
      been made. */
  lemma MapTakesExactly(states: seq<Tables>, events: seq<Event>, i: nat, p: nat)
    requires IsHistory(states, events) && i < |states| && IsMap(states[i], p)
    requires states[i].rows[Top(p)].input.source.Some? && states[i].rows[Top(p)].input.source.value != []
    ensures var input := states[i].rows[Top(p)].input;
            var cost := 2 + Tries(input.failIndices, |input.source.value|);
            && Claims(events[..i], p) <= cost
            && (states[i].rows[Top(p)].status == Done <==> Claims(events[..i], p) == cost)
  {
    var t := states[i];
    HistoryInv(states, events, i);
    ClaimsAreSpent(states, events, i, p);
    assert MapInv(t, p);
    if p in t.mapNodes {
      var m := t.mapNodes[p];
      AttemptsBounded(t.rows, p, m.source, t.rows[Top(p)].input.failIndices, m.total);
      AllChildrenDone(t.rows, p, m.total);
    }
  }

  /** A done child took one claim, and one more for each failure its map was given for it. */
  lemma ChildTakesExactly(states: seq<Tables>, events: seq<Event>, i: nat, p: nat, k: nat)
    requires IsHistory(states, events) && i < |states| && IsMap(states[i], p)
    requires Child(p, k) in states[i].rows
    ensures var row, failIndices := states[i].rows[Child(p, k)], states[i].rows[Top(p)].input.failIndices;
            var failures := if k in failIndices then failIndices[k] else 0;
            && row.attempts <= 1 + failures
            && (row.status == Done <==> row.attempts == 1 + failures)
  {
    HistoryInv(states, events, i);
    assert MapInv(states[i], p);
    assert ChildInv(states[i].rows[Child(p, k)], states[i].mapNodes[p].source[k],
                    Failures(states[i].rows[Top(p)].input.failIndices, k));
  }

  /** Until such a map is done, one of its rows is queued and handling it commits. */
  lemma MapCanMove(states: seq<Tables>, events: seq<Event>, i: nat, p: nat) returns (id: RowId)
    requires IsHistory(states, events) && i < |states| && IsMap(states[i], p)
    requires states[i].rows[Top(p)].input.source.Some? && states[i].rows[Top(p)].input.source.value != []
    requires states[i].rows[Top(p)].status != Done
    ensures MapOf(id) == p && Enabled(states[i], Handle(id))
  {
    var t := states[i];
    HistoryInv(states, events, i);
    assert MapInv(t, p);
    id := Top(p);
    if t.rows[id].status == Queued {
      RollbackOnlyWithoutSource(states, events, i, id);
    } else {
      var m := t.mapNodes[p];
      AllChildrenDone(t.rows, p, m.total);
      var k: nat :| k < m.total && t.rows[Child(p, k)].status != Done;
      id := Child(p, k);
    }
  }

  /** A map over an empty source parks after its fan-out and stays parked forever. */
  lemma EmptyMapStaysParked(states: seq<Tables>, events: seq<Event>, i: nat, p: nat)
    requires IsHistory(states, events) && i < |states| && IsMap(states[i], p)
    requires states[i].rows[Top(p)].input.source == Some([]) && p in states[i].mapNodes
    ensures states[i].rows[Top(p)].status == AwaitingChildren && p !in states[i].results
    ensures Claims(events[..i], p) == 1
  {
    HistoryInv(states, events, i);
    ClaimsAreSpent(states, events, i, p);
    assert MapInv(states[i], p);
  }

  // ---- which maps can finish -----------------------------------------------------------------

  lemma InputStep(t: Tables, ev: Event, p: nat)
    requires Inv(t) && Enabled(t, ev) && IsMap(t, p)
    ensures IsMap(Apply(t, ev), p) && Apply(t, ev).rows[Top(p)].input == t.rows[Top(p)].input
  {
    if ev.Submit? || MapOf(ev.id) != p {
      ApplyOthers(t, ev, p);
    } else if ev.id.Child? {
      assert t.rows[ev.id].input.StepInput?;
      if t.rows[ev.id].failRemaining == 0 {
        var requeue := CompleteRows(t, ev.id);
      }
    } else if p !in t.mapNodes {
      FanOutRows(t, p, t.rows[Top(p)].input.source.value, t.rows[Top(p)].input.failIndices);
    }
  }

  /** The input of a map never changes. */
  lemma {:induction false} InputStays(states: seq<Tables>, events: seq<Event>, p: nat, i: nat, j: nat)
    requires IsHistory(states, events) && i <= j < |states| && IsMap(states[i], p)
    ensures IsMap(states[j], p) && states[j].rows[Top(p)].input == states[i].rows[Top(p)].input
    decreases j - i
  {
    if i < j {
      InputStays(states, events, p, i, j - 1);
      InputKept(states, events, p, j - 1);
    }
  }

  lemma InputKept(states: seq<Tables>, events: seq<Event>, p: nat, j: nat)
    requires IsHistory(states, events) && j < |events| && IsMap(states[j], p)
    ensures IsMap(states[j + 1], p) && states[j + 1].rows[Top(p)].input == states[j].rows[Top(p)].input
  {
    HistoryInv(states, events, j);
    assert Enabled(states[j], events[j]);
    InputStep(states[j], events[j], p);
  }

  lemma ExtendHistory(states: seq<Tables>, events: seq<Event>, ev: Event)
    requires IsHistory(states, events) && Enabled(states[|events|], ev)
    ensures IsHistory(states + [Apply(states[|events|], ev)], events + [ev])
  {
  }

  predicate NonEmptySource(input: Input) {
    input.MapInput? && input.source.Some? && input.source.value != []
  }

  /** The claims a map of this input still needs after these events. */
  function Missing(input: Input, events: seq<Event>, p: nat): int
    requires NonEmptySource(input)
  {
    2 + Tries(input.failIndices, |input.source.value|) - Claims(events, p)
  }

  /** Handling one of its queued rows after another finishes a map over a non-empty source. */
  lemma {:induction false} FinishMap(states: seq<Tables>, events: seq<Event>, p: nat)
    returns (states': seq<Tables>, events': seq<Event>)
    requires IsHistory(states, events) && IsMap(states[|events|], p)
    requires NonEmptySource(states[|events|].rows[Top(p)].input)
    ensures Finishes(states, events, p, states', events')
    decreases Missing(states[|events|].rows[Top(p)].input, events, p)
  {
    var t := states[|events|];
    assert events[..|events|] == events;
    MapTakesExactly(states, events, |events|, p);
    if t.rows[Top(p)].status == Done {
      states', events' := states, events;
    } else {
      var id := MapCanMove(states, events, |events|, p);
      var ev := Handle(id);
      ExtendHistory(states, events, ev);
      HistoryInv(states, events, |events|);
      InputStep(t, ev, p);
      assert (events + [ev])[..|events|] == events;
      states', events' := FinishMap(states + [Apply(t, ev)], events + [ev], p);
    }
  }

  /** The second history continues the first one and ends with the map done. */
  ghost predicate Finishes(
    states: seq<Tables>, events: seq<Event>, p: nat, states': seq<Tables>, events': seq<Event>)
  {
    && IsHistory(states', events') && states <= states' && events <= events'
    && IsMap(states'[|events'|], p) && states'[|events'|].rows[Top(p)].status == Done
  }

  ghost predicate CanFinish(states: seq<Tables>, events: seq<Event>, p: nat) {
    exists states', events' :: Finishes(states, events, p, states', events')
  }

  /** From any reachable state a map can still finish exactly when its source is an array
      with at least one item. */
  lemma CanFinishIff(states: seq<Tables>, events: seq<Event>, p: nat)
    requires IsHistory(states, events) && IsMap(states[|events|], p)
    ensures CanFinish(states, events, p) <==> NonEmptySource(states[|events|].rows[Top(p)].input)
  {
    if NonEmptySource(states[|events|].rows[Top(p)].input) {
      var states', events' := FinishMap(states, events, p);
    }
    if CanFinish(states, events, p) {
      var states', events' :| Finishes(states, events, p, states', events');
      assert states'[|events|] == states[|events|];
      InputStays(states', events', p, |events|, |events'|);
      HistoryInv(states', events', |events'|);
      assert MapInv(states'[|events'|], p);
    }
  }

  /** A map over an empty source does get fanned out, and is then parked. */
  lemma EmptyMapIsReachable() returns (states: seq<Tables>, events: seq<Event>)
    ensures IsHistory(states, events) && |states| == 3
    ensures 0 in states[2].mapNodes && IsMap(states[2], 0)
    ensures states[2].rows[Top(0)].input.source == Some([]) && states[2].rows[Top(0)].status == AwaitingChildren
    ensures !CanFinish(states, events, 0)
  {
    var e0, e1 := Submit(0, MapInput(Some([]), map[]), 0), Handle(Top(0));
    var s0 := Tables(map[], map[], map[], map[], map[]);
    var s1 := Apply(s0, e0);
    assert Enabled(s0, e0) && Enabled(s1, e1);
    var s2 := Apply(s1, e1);
    states, events := [s0, s1, s2], [e0, e1];
    CanFinishIff(states, events, 0);
  }
}
