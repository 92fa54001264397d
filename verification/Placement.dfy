/**
  Placement facts and their access log (src/scheduler/placement.ts and the queries of
  placement and placement_access): recording an access, deciding promotion and demotion,
  and evicting the least recently used pinned entries.
 */
module Placement {
  import opened Wrappers

  type Hash = string

  datatype CostClass = Trivial | Cheap | Moderate | Expensive

  /** A row of `placement`; `observed` is the rolling mean of `samples` timings. */
  datatype Placed = Placed(
    interactive: bool,
    accessCount: nat,
    lastAccessedAt: int,
    costClass: Option<CostClass>,
    sizeBytes: int,
    observed: Option<real>,
    samples: nat,
    pinned: bool)

  datatype Access = Access(hash: Hash, at: int)

  datatype Tables = Tables(placements: map<Hash, Placed>, accesses: seq<Access>)

  datatype Config = Config(
    frequencyThreshold: int,
    frequencyWindow: int,
    costThreshold: real,
    idleThreshold: int,
    pinnedBudget: int,
    observedMinSamples: int,
    classPriors: map<CostClass, real>)

  /** What a caller of recordAccess may supply. */
  datatype AccessOptions = AccessOptions(
    at: Option<int>,
    interactive: Option<bool>,
    costClass: Option<CostClass>,
    sizeBytes: Option<int>,
    rehydrationMs: Option<real>,
    config: Config)

  function Coalesce<T>(a: Option<T>, b: T): T {
    if a.Some? then a.value else b
  }

  // ---- statements ---------------------------------------------------------------------

  function Upserted(placements: map<Hash, Placed>, h: Hash, o: AccessOptions, now: int): Placed {
    if h !in placements then
      Placed(Coalesce(o.interactive, false), 1, Coalesce(o.at, now), o.costClass, Coalesce(o.sizeBytes, 0),
             o.rehydrationMs, if o.rehydrationMs.None? then 0 else 1, false)
    else
      var p := placements[h];
      Placed(Coalesce(o.interactive, p.interactive), p.accessCount + 1, Coalesce(o.at, now),
             if o.costClass.Some? then o.costClass else p.costClass, Coalesce(o.sizeBytes, p.sizeBytes),
             RollingMean(p.observed, p.samples, o.rehydrationMs),
             p.samples + if o.rehydrationMs.None? then 0 else 1, p.pinned)
  }

  function RollingMean(observed: Option<real>, samples: nat, sample: Option<real>): Option<real> {
    if sample.None? then observed
    else if observed.None? then sample
    else Some((observed.value * (samples as real) + sample.value) / ((samples + 1) as real))
  }

  /** Times of the rows of one hash from `cutoff` on, in insertion order. */
  function Recent(log: seq<Access>, h: Hash, cutoff: int): seq<int> {
    if log == [] then []
    else
      var init, last := Recent(log[..|log| - 1], h, cutoff), log[|log| - 1];
      if last.hash == h && last.at >= cutoff then init + [last.at] else init
  }

  /** The rows left after deleting those of one hash before `cutoff`. */
  function Pruned(log: seq<Access>, h: Hash, cutoff: int): seq<Access> {
    if log == [] then []
    else
      var init, last := Pruned(log[..|log| - 1], h, cutoff), log[|log| - 1];
      if last.hash == h && last.at < cutoff then init else init + [last]
  }

  function CountWithinWindow(t: Tables, h: Hash, window: int, now: int): nat {
    |Recent(t.accesses, h, now - window)|
  }

  function PruneHorizon(config: Config): int {
    if config.frequencyWindow < config.idleThreshold then config.idleThreshold else config.frequencyWindow
  }

  function Recorded(t: Tables, h: Hash, o: AccessOptions, now: int): Tables {
    Tables(t.placements[h := Upserted(t.placements, h, o, now)],
           Pruned(t.accesses + [Access(h, Coalesce(o.at, now))], h, now - PruneHorizon(o.config)))
  }

  function WithPin(placements: map<Hash, Placed>, h: Hash, pinned: bool): map<Hash, Placed>
    requires h in placements
  {
    placements[h := placements[h].(pinned := pinned)]
  }

  // ---- decisions ------------------------------------------------------------------------

  /** effectiveRehydrationCostMs. */
  function EffectiveCost(p: Placed, config: Config): Option<real> {
    if p.observed.Some? && p.samples >= config.observedMinSamples then p.observed
    else if p.costClass.Some? && p.costClass.value in config.classPriors
    then Some(config.classPriors[p.costClass.value])
    else None
  }

  datatype PromotionReason =
    NoPlacement | AlreadyPinned | NotInteractive | CostBelowThreshold | FrequencyBelowThreshold | Qualifies

  function EvaluatePromotion(t: Tables, h: Hash, config: Config, now: int): PromotionReason {
    if h !in t.placements then NoPlacement
    else if t.placements[h].pinned then AlreadyPinned
    else
      var cost := EffectiveCost(t.placements[h], config);
      if !t.placements[h].interactive then NotInteractive
      else if cost.None? || cost.value <= config.costThreshold then CostBelowThreshold
      else if CountWithinWindow(t, h, config.frequencyWindow, now) < config.frequencyThreshold
      then FrequencyBelowThreshold
      else Qualifies
  }

  /** evaluateDemotion, its idle test apart: a pinned row idle for longer than the
      threshold. */
  predicate IdlePastThreshold(p: Placed, config: Config, now: int) {
    now - p.lastAccessedAt > config.idleThreshold
  }

  predicate EvaluateDemotion(t: Tables, h: Hash, config: Config, now: int) {
    h in t.placements && t.placements[h].pinned && IdlePastThreshold(t.placements[h], config, now)
  }

  // ---- the repositories ---------------------------------------------------------------------

  class PlacementRepos {
    var placements: map<Hash, Placed>
    var accesses: seq<Access>

    ghost function Contents(): Tables
      reads this
    {
      Tables(placements, accesses)
    }

    method PruneOlderThan(h: Hash, cutoff: int)
      modifies this`accesses
      ensures accesses == Pruned(old(accesses), h, cutoff)
    {
      var kept: seq<Access> := [];
      for i := 0 to |accesses|
        invariant accesses == old(accesses) && kept == Pruned(accesses[..i], h, cutoff)
      {
        assert accesses[..i + 1][..i] == accesses[..i];
        if !(accesses[i].hash == h && accesses[i].at < cutoff) {
          kept := kept + [accesses[i]];
        }
      }
      assert accesses[..|accesses|] == accesses;
      accesses := kept;
    }

    /** recordAccess: upsert, append to the log, prune the log by the wider window. */
    method RecordAccess(h: Hash, o: AccessOptions, now: int)
      modifies this
      ensures Contents() == Recorded(old(Contents()), h, o, now)
    {
      placements := placements[h := Upserted(placements, h, o, now)];
      accesses := accesses + [Access(h, Coalesce(o.at, now))];
      PruneOlderThan(h, now - PruneHorizon(o.config));
    }

    method Demote(h: Hash)
      requires h in placements
      modifies this`placements
      ensures placements == WithPin(old(placements), h, false)
    {
      placements := placements[h := placements[h].(pinned := false)];
    }

    /** The pinned rows by last access; rows of equal time come in any order. */
    method ListPinnedOrderedByLru() returns (r: seq<Hash>)
      ensures IsLruList(placements, r)
    {
      var unlisted := PinnedSet(placements);
      r := [];
      while unlisted != {}
        invariant unlisted <= PinnedSet(placements)
        invariant forall h :: h in r <==> h in PinnedSet(placements) && h !in unlisted
        invariant forall i, j :: 0 <= i < j < |r| ==> r[i] != r[j] && Time(placements, r[i]) <= Time(placements, r[j])
        invariant forall i, h :: 0 <= i < |r| && h in unlisted ==> Time(placements, r[i]) <= Time(placements, h)
        decreases |unlisted|
      {
        OldestExists(placements, unlisted);
        var h :| h in unlisted && forall o :: o in unlisted ==> Time(placements, h) <= Time(placements, o);
        r := r + [h];
        unlisted := unlisted - {h};
      }
    }

    method TotalSize(pinned: seq<Hash>) returns (total: int)
      requires forall i :: 0 <= i < |pinned| ==> pinned[i] in placements
      requires forall i, j :: 0 <= i < j < |pinned| ==> pinned[i] != pinned[j]
      ensures total == SumSizes(placements, set i | 0 <= i < |pinned| :: pinned[i])
    {
      total := 0;
      ghost var seen: set<Hash> := {};
      for i := 0 to |pinned|
        invariant seen == set j | 0 <= j < i :: pinned[j]
        invariant total == SumSizes(placements, seen)
      {
        assert pinned[i] !in seen;
        seen := seen + {pinned[i]};
        SumWithout(placements, seen, pinned[i]);
        assert seen - {pinned[i]} == set j | 0 <= j < i :: pinned[j];
        total := total + placements[pinned[i]].sizeBytes;
      }
    }

    /** evictLRUIfOverCapacity. */
    method EvictLRUIfOverCapacity(budget: int) returns (evicted: seq<Hash>)
      modifies this`placements
      ensures Evicts(old(placements), budget, evicted, placements)
    {
      var pinned := ListPinnedOrderedByLru();
      LruListsAll(placements, pinned);
      var total := TotalSize(pinned);
      EvictingStarts(placements, pinned, total, budget);
      if total <= budget {
        EvictingEnds(placements, pinned, 0, placements, [], total, budget);
        return [];
      }
      evicted := DemoteUntilFits(pinned, total, budget);
    }

    /** Demotes from the oldest on, rows without a size left out, until the total fits. */
    method DemoteUntilFits(pinned: seq<Hash>, size: int, budget: int) returns (evicted: seq<Hash>)
      requires Evicting(placements, pinned, 0, placements, [], size, budget)
      modifies this`placements
      ensures Evicts(old(placements), budget, evicted, placements)
    {
      ghost var start := placements;
      var total := size;
      evicted := [];
      var i := 0;
      while i < |pinned| && total > budget
        invariant Evicting(start, pinned, i, placements, evicted, total, budget)
      {
        var h := pinned[i];
        EvictingStep(start, pinned, i, placements, evicted, total, budget);
        if placements[h].sizeBytes > 0 {
          total := total - placements[h].sizeBytes;
          Demote(h);
          evicted := evicted + [h];
        }
        i := i + 1;
      }
      EvictingEnds(start, pinned, i, placements, evicted, total, budget);
    }
  }

  // ---- the pinned set and its size -------------------------------------------------------------

  function PinnedSet(placements: map<Hash, Placed>): set<Hash> {
    set h | h in placements && placements[h].pinned
  }

  function Time(placements: map<Hash, Placed>, h: Hash): int {
    if h in placements then placements[h].lastAccessedAt else 0
  }

  function Size(placements: map<Hash, Placed>, h: Hash): int {
    if h in placements then placements[h].sizeBytes else 0
  }

  /** SELECT ... WHERE pinned ORDER BY last_accessed_at ASC. */
  ghost predicate IsLruList(placements: map<Hash, Placed>, r: seq<Hash>) {
    && (forall h :: h in r <==> h in placements && placements[h].pinned)
    && (forall i :: 0 <= i < |r| ==> r[i] in placements)
    && (forall i, j :: 0 <= i < j < |r| ==>
          r[i] != r[j] && placements[r[i]].lastAccessedAt <= placements[r[j]].lastAccessedAt)
  }

  lemma {:induction false} OldestExists(placements: map<Hash, Placed>, s: set<Hash>)
    requires s != {}
    ensures exists h :: h in s && forall o :: o in s ==> Time(placements, h) <= Time(placements, o)
    decreases |s|
  {
    var x :| x in s;
    var rest := s - {x};
    assert forall o :: o in s ==> o == x || o in rest;
    if rest == {} {
      assert x in s && forall o :: o in s ==> Time(placements, x) <= Time(placements, o);
    } else {
      OldestExists(placements, rest);
      var y :| y in rest && forall o :: o in rest ==> Time(placements, y) <= Time(placements, o);
      var h := if Time(placements, x) < Time(placements, y) then x else y;
      assert h in s && forall o :: o in s ==> Time(placements, h) <= Time(placements, o);
    }
  }

  ghost function SumSizes(placements: map<Hash, Placed>, s: set<Hash>): int
    decreases |s|
  {
    if s == {} then 0
    else
      var h :| h in s;
      Size(placements, h) + SumSizes(placements, s - {h})
  }

  /** The sum does not depend on the order in which it is taken. */
  lemma {:induction false} SumWithout(placements: map<Hash, Placed>, s: set<Hash>, h: Hash)
    requires h in s
    ensures SumSizes(placements, s) == Size(placements, h) + SumSizes(placements, s - {h})
    decreases |s|
  {
    var x :| x in s && SumSizes(placements, s) == Size(placements, x) + SumSizes(placements, s - {x});
    if x != h {
      SumWithout(placements, s - {x}, h);
      SumWithout(placements, s - {h}, x);
      assert s - {x} - {h} == s - {h} - {x};
    }
  }

  lemma {:induction false} SumSame(a: map<Hash, Placed>, b: map<Hash, Placed>, s: set<Hash>)
    requires forall h :: h in s ==> Size(a, h) == Size(b, h)
    ensures SumSizes(a, s) == SumSizes(b, s)
    decreases |s|
  {
    if s != {} {
      var h :| h in s;
      SumWithout(a, s, h);
      SumWithout(b, s, h);
      SumSame(a, b, s - {h});
    }
  }

  ghost function PinnedTotal(placements: map<Hash, Placed>): int {
    SumSizes(placements, PinnedSet(placements))
  }

  lemma LruListsAll(placements: map<Hash, Placed>, r: seq<Hash>)
    requires IsLruList(placements, r)
    ensures (set i | 0 <= i < |r| :: r[i]) == PinnedSet(placements)
    ensures forall i :: 0 <= i < |r| ==> r[i] in placements
  {
    assert forall i :: 0 <= i < |r| ==> r[i] in r;
    forall h | h in PinnedSet(placements)
      ensures h in set i | 0 <= i < |r| :: r[i]
    {
      assert h in r;
    }
  }

  lemma DemotedTotal(placements: map<Hash, Placed>, h: Hash)
    requires h in placements && placements[h].pinned
    ensures PinnedTotal(WithPin(placements, h, false)) == PinnedTotal(placements) - placements[h].sizeBytes
  {
    var after := WithPin(placements, h, false);
    SumWithout(placements, PinnedSet(placements), h);
    assert PinnedSet(after) == PinnedSet(placements) - {h};
    SumSame(placements, after, PinnedSet(after));
  }

  // ---- what an eviction does ---------------------------------------------------------------------

  /** The entries with a positive size, in order. */
  function Positive(placements: map<Hash, Placed>, list: seq<Hash>): seq<Hash> {
    if list == [] then []
    else
      var init, last := Positive(placements, list[..|list| - 1]), list[|list| - 1];
      if Size(placements, last) > 0 then init + [last] else init
  }

  /** `after` is `before` with exactly these entries unpinned. */
  ghost predicate Unpins(before: map<Hash, Placed>, evicted: seq<Hash>, after: map<Hash, Placed>) {
    && after.Keys == before.Keys
    && forall h :: h in before ==>
         after[h] == if h in evicted then before[h].(pinned := false) else before[h]
  }

  /** The first `k` pinned entries, least recently used first, have been considered. */
  ghost predicate Evicted(
    before: map<Hash, Placed>, list: seq<Hash>, k: nat, after: map<Hash, Placed>, evicted: seq<Hash>)
  {
    && IsLruList(before, list) && k <= |list|
    && evicted == Positive(before, list[..k])
    && Unpins(before, evicted, after)
  }

  /**
    The whole effect of one call. The evicted entries are a prefix, in LRU order, of the
    pinned entries with a positive size; nothing else changes; the pinned total is back
    within the budget, unless nothing is left whose eviction would lower it; and without
    the last eviction it would not be.
   */
  ghost predicate Evicts(before: map<Hash, Placed>, budget: int, evicted: seq<Hash>, after: map<Hash, Placed>) {
    && (exists list, k :: Evicted(before, list, k, after, evicted))
    && (PinnedTotal(after) <= budget || forall h :: h in after && after[h].pinned ==> after[h].sizeBytes <= 0)
    && (PinnedTotal(before) <= budget ==> evicted == [])
    && (evicted != [] ==> PinnedTotal(after) + Size(before, evicted[|evicted| - 1]) > budget)
  }

  lemma {:induction false} PositiveMembers(placements: map<Hash, Placed>, list: seq<Hash>)
    ensures forall h :: h in Positive(placements, list) <==> h in list && Size(placements, h) > 0
  {
    if list != [] {
      assert list == list[..|list| - 1] + [list[|list| - 1]];
      PositiveMembers(placements, list[..|list| - 1]);
    }
  }

  /** The next entry is still pinned with its size, and demoting or skipping it is the
      next step of the prefix. */
  lemma EvictedStep(before: map<Hash, Placed>, list: seq<Hash>, k: nat, after: map<Hash, Placed>, evicted: seq<Hash>)
    requires Evicted(before, list, k, after, evicted) && k < |list|
    ensures list[k] in before && list[k] in after && after[list[k]] == before[list[k]] && after[list[k]].pinned
    ensures if Size(before, list[k]) > 0 then
              Evicted(before, list, k + 1, WithPin(after, list[k], false), evicted + [list[k]])
            else Evicted(before, list, k + 1, after, evicted)
  {
    var h := list[k];
    assert h in list;
    assert list[..k + 1][..k] == list[..k];
    PositiveMembers(before, list[..k]);
    assert h !in list[..k];
  }

  lemma NothingLeftToEvict(before: map<Hash, Placed>, list: seq<Hash>, after: map<Hash, Placed>, evicted: seq<Hash>)
    requires Evicted(before, list, |list|, after, evicted)
    ensures forall h :: h in after && after[h].pinned ==> after[h].sizeBytes <= 0
  {
    assert list[..|list|] == list;
    PositiveMembers(before, list);
    forall h | h in after && after[h].pinned
      ensures after[h].sizeBytes <= 0
    {
      assert before[h].pinned && h in list;
    }
  }

  /** The state of the eviction loop: the running total is that of what is still pinned,
      and it exceeded the budget before the last eviction. */
  ghost predicate Evicting(
    start: map<Hash, Placed>, list: seq<Hash>, k: nat, current: map<Hash, Placed>, evicted: seq<Hash>,
    total: int, budget: int)
  {
    && Evicted(start, list, k, current, evicted)
    && total == PinnedTotal(current)
    && (evicted == [] ==> current == start)
    && (evicted != [] ==> PinnedTotal(start) > budget && total + Size(start, evicted[|evicted| - 1]) > budget)
  }

  lemma EvictingStarts(start: map<Hash, Placed>, list: seq<Hash>, total: int, budget: int)
    requires IsLruList(start, list) && total == PinnedTotal(start)
    ensures Evicting(start, list, 0, start, [], total, budget)
  {
  }

  lemma EvictingStep(
    start: map<Hash, Placed>, list: seq<Hash>, k: nat, current: map<Hash, Placed>, evicted: seq<Hash>,
    total: int, budget: int)
    requires Evicting(start, list, k, current, evicted, total, budget) && k < |list| && total > budget
    ensures list[k] in current
    ensures var h := list[k];
            if current[h].sizeBytes > 0
            then Evicting(start, list, k + 1, WithPin(current, h, false), evicted + [h],
                          total - current[h].sizeBytes, budget)
            else Evicting(start, list, k + 1, current, evicted, total, budget)
  {
    var h := list[k];
    EvictedStep(start, list, k, current, evicted);
    if current[h].sizeBytes > 0 {
      DemotedTotal(current, h);
      assert (evicted + [h])[|evicted + [h]| - 1] == h;
    }
  }

  lemma EvictingEnds(
    start: map<Hash, Placed>, list: seq<Hash>, k: nat, current: map<Hash, Placed>, evicted: seq<Hash>,
    total: int, budget: int)
    requires Evicting(start, list, k, current, evicted, total, budget)
    requires total <= budget || k == |list|
    ensures Evicts(start, budget, evicted, current)
  {
    if total > budget {
      NothingLeftToEvict(start, list, current, evicted);
    }
  }

  /** With a budget that is not negative, the total always ends within it. */
  lemma {:induction false} NonPositiveTotal(placements: map<Hash, Placed>, s: set<Hash>)
    requires forall h :: h in s ==> Size(placements, h) <= 0
    ensures SumSizes(placements, s) <= 0
    decreases |s|
  {
    if s != {} {
      var h :| h in s;
      SumWithout(placements, s, h);
      NonPositiveTotal(placements, s - {h});
    }
  }

  lemma EvictionMeetsBudget(before: map<Hash, Placed>, budget: nat, evicted: seq<Hash>, after: map<Hash, Placed>)
    requires Evicts(before, budget, evicted, after)
    ensures PinnedTotal(after) <= budget
  {
    if forall h :: h in PinnedSet(after) ==> Size(after, h) <= 0 {
      NonPositiveTotal(after, PinnedSet(after));
    }
  }

  /** A second call right after the first evicts nothing and changes nothing. */
  lemma SecondEvictionIsEmpty(
    before: map<Hash, Placed>, budget: int, evicted: seq<Hash>, after: map<Hash, Placed>,
    again: seq<Hash>, last: map<Hash, Placed>)
    requires Evicts(before, budget, evicted, after) && Evicts(after, budget, again, last)
    ensures again == [] && last == after
  {
    var list, k :| Evicted(after, list, k, last, again);
    PositiveMembers(after, list[..k]);
    if PinnedTotal(after) > budget {
      forall h | h in list[..k]
        ensures Size(after, h) <= 0
      {
        assert h in list;
      }
      assert forall h :: h !in again;
    }
    assert again == [];
  }

  // ---- histories of accesses ----------------------------------------------------------------------

  datatype Event = Accessed(hash: Hash, options: AccessOptions, now: int) | Pin(hash: Hash, pinned: bool)

  ghost predicate Enabled(t: Tables, ev: Event) {
    ev.Pin? ==> ev.hash in t.placements
  }

  function Apply(t: Tables, ev: Event): Tables
    requires ev.Pin? ==> ev.hash in t.placements
  {
    match ev
    case Accessed(h, o, now) => Recorded(t, h, o, now)
    case Pin(h, pinned) => t.(placements := WithPin(t.placements, h, pinned))
  }

  ghost predicate IsHistory(states: seq<Tables>, events: seq<Event>) {
    && |states| == |events| + 1 && states[0] == Tables(map[], [])
    && forall i {:trigger events[i]} :: 0 <= i < |events| ==>
         Enabled(states[i], events[i]) && states[i + 1] == Apply(states[i], events[i])
  }

  function AccessTime(ev: Event): int
    requires ev.Accessed?
  {
    Coalesce(ev.options.at, ev.now)
  }

  predicate IsAccess(ev: Event, h: Hash) {
    ev.Accessed? && ev.hash == h
  }

  /** Every access ever recorded, none pruned. */
  function FullLog(events: seq<Event>): seq<Access> {
    if events == [] then []
    else
      var init, last := FullLog(events[..|events| - 1]), events[|events| - 1];
      if last.Accessed? then init + [Access(last.hash, AccessTime(last))] else init
  }

  lemma {:induction false} RecentOfPruned(log: seq<Access>, h: Hash, cutoff: int, o: Hash, pruneAt: int)
    requires h == o ==> pruneAt <= cutoff
    ensures Recent(Pruned(log, o, pruneAt), h, cutoff) == Recent(log, h, cutoff)
  {
    if log != [] {
      var init, last := log[..|log| - 1], log[|log| - 1];
      RecentOfPruned(init, h, cutoff, o, pruneAt);
      assert (Pruned(init, o, pruneAt) + [last])[..|Pruned(init, o, pruneAt)|] == Pruned(init, o, pruneAt);
    }
  }

  lemma RecentSnoc(log: seq<Access>, a: Access, h: Hash, cutoff: int)
    ensures Recent(log + [a], h, cutoff) ==
            Recent(log, h, cutoff) + if a.hash == h && a.at >= cutoff then [a.at] else []
  {
    assert (log + [a])[..|log|] == log;
  }

  /** The clock had reached at most `now`, and no access to this hash was recorded with a
      prune horizon narrower than `window`. */
  ghost predicate WideHorizons(events: seq<Event>, h: Hash, window: int, now: int) {
    forall i :: 0 <= i < |events| && IsAccess(events[i], h) ==>
      events[i].now <= now && window <= PruneHorizon(events[i].options.config)
  }

  /** On the pruned log a window no wider than any prune horizon used counts exactly what it
      would count on the full history. */
  lemma {:induction false} PrunedLogCountsAll(
    states: seq<Tables>, events: seq<Event>, i: nat, h: Hash, window: int, now: int)
    requires IsHistory(states, events) && i < |states| && WideHorizons(events[..i], h, window, now)
    ensures Recent(states[i].accesses, h, now - window) == Recent(FullLog(events[..i]), h, now - window)
    ensures CountWithinWindow(states[i], h, window, now) == |Recent(FullLog(events[..i]), h, now - window)|
  {
    if i > 0 {
      WideBefore(events, i, h, window, now);
      PrunedLogCountsAll(states, events, i - 1, h, window, now);
      PrunedLogNext(states, events, i, h, now - window);
    }
  }

  lemma WideBefore(events: seq<Event>, i: nat, h: Hash, window: int, now: int)
    requires 0 < i <= |events| && WideHorizons(events[..i], h, window, now)
    ensures WideHorizons(events[..i - 1], h, window, now)
    ensures IsAccess(events[i - 1], h) ==>
              events[i - 1].now - PruneHorizon(events[i - 1].options.config) <= now - window
  {
    assert events[..i][i - 1] == events[i - 1];
    forall k | 0 <= k < i - 1
      ensures events[..i][k] == events[..i - 1][k]
    {
    }
  }

  lemma PrunedLogNext(states: seq<Tables>, events: seq<Event>, i: nat, h: Hash, cutoff: int)
    requires IsHistory(states, events) && 0 < i < |states|
    requires Recent(states[i - 1].accesses, h, cutoff) == Recent(FullLog(events[..i - 1]), h, cutoff)
    requires IsAccess(events[i - 1], h) ==>
               events[i - 1].now - PruneHorizon(events[i - 1].options.config) <= cutoff
    ensures Recent(states[i].accesses, h, cutoff) == Recent(FullLog(events[..i]), h, cutoff)
  {
    assert events[..i][..i - 1] == events[..i - 1] && events[..i][i - 1] == events[i - 1];
    assert Enabled(states[i - 1], events[i - 1]);
    PrunedStep(states[i - 1], events[i - 1], FullLog(events[..i - 1]), h, cutoff);
  }

  /** One more access keeps the recent rows of the pruned log and of the full one equal. */
  lemma PrunedStep(t: Tables, ev: Event, full: seq<Access>, h: Hash, cutoff: int)
    requires Enabled(t, ev) && Recent(t.accesses, h, cutoff) == Recent(full, h, cutoff)
    requires IsAccess(ev, h) ==> ev.now - PruneHorizon(ev.options.config) <= cutoff
    ensures Recent(Apply(t, ev).accesses, h, cutoff) ==
            Recent(if ev.Accessed? then full + [Access(ev.hash, AccessTime(ev))] else full, h, cutoff)
  {
    if ev.Accessed? {
      var a := Access(ev.hash, AccessTime(ev));
      RecentSnoc(t.accesses, a, h, cutoff);
      RecentSnoc(full, a, h, cutoff);
      RecentOfPruned(t.accesses + [a], h, cutoff, ev.hash, ev.now - PruneHorizon(ev.options.config));
    }
  }

  // ---- hysteresis -----------------------------------------------------------------------------------

  ghost predicate InOrder(events: seq<Event>, h: Hash) {
    forall i, j :: 0 <= i < j < |events| && IsAccess(events[i], h) && IsAccess(events[j], h) ==>
      AccessTime(events[i]) <= AccessTime(events[j])
  }

  lemma {:induction false} PrunedMembers(log: seq<Access>, h: Hash, cutoff: int)
    ensures forall a :: a in Pruned(log, h, cutoff) ==> a in log
  {
    if log != [] {
      assert log == log[..|log| - 1] + [log[|log| - 1]];
      PrunedMembers(log[..|log| - 1], h, cutoff);
    }
  }

  lemma {:induction false} RecentMembers(log: seq<Access>, h: Hash, cutoff: int)
    ensures forall x :: x in Recent(log, h, cutoff) ==> x >= cutoff && Access(h, x) in log
  {
    if log != [] {
      assert log == log[..|log| - 1] + [log[|log| - 1]];
      RecentMembers(log[..|log| - 1], h, cutoff);
    }
  }

  /** Every stored access was recorded by an access event. */
  lemma {:induction false} StoredWasRecorded(states: seq<Tables>, events: seq<Event>, i: nat, a: Access)
    requires IsHistory(states, events) && i < |states| && a in states[i].accesses
    ensures exists k :: 0 <= k < i && events[k].Accessed? && events[k].hash == a.hash && AccessTime(events[k]) == a.at
  {
    if i > 0 {
      var t, ev := states[i - 1], events[i - 1];
      if ev.Accessed? {
        PrunedMembers(t.accesses + [Access(ev.hash, AccessTime(ev))], ev.hash,
                      ev.now - PruneHorizon(ev.options.config));
      }
      if a in t.accesses {
        StoredWasRecorded(states, events, i - 1, a);
      }
    }
  }

  /** Recorded in order, the last access time of a row is the latest. */
  lemma {:induction false} LastAccessIsLatest(states: seq<Tables>, events: seq<Event>, i: nat, h: Hash, k: nat)
    requires IsHistory(states, events) && i < |states| && InOrder(events, h)
    requires k < i && events[k].Accessed? && events[k].hash == h
    ensures h in states[i].placements && AccessTime(events[k]) <= states[i].placements[h].lastAccessedAt
  {
    assert Enabled(states[i - 1], events[i - 1]);
    if k < i - 1 {
      LastAccessIsLatest(states, events, i - 1, h, k);
    }
  }

  /** The time of the last access recorded for a hash. */
  function LastAccess(events: seq<Event>, h: Hash): Option<int> {
    if events == [] then None
    else if IsAccess(events[|events| - 1], h) then Some(AccessTime(events[|events| - 1]))
    else LastAccess(events[..|events| - 1], h)
  }

  lemma LastAccessStep(t: Tables, ev: Event, h: Hash)
    requires Enabled(t, ev)
    ensures h in Apply(t, ev).placements <==> h in t.placements || IsAccess(ev, h)
    ensures h in Apply(t, ev).placements ==>
              Apply(t, ev).placements[h].lastAccessedAt ==
              if IsAccess(ev, h) then AccessTime(ev) else t.placements[h].lastAccessedAt
  {
  }

  /** A row's last access time is the time given with the last access recorded for it. */
  lemma {:induction false} LastAccessedIsLastEvent(states: seq<Tables>, events: seq<Event>, i: nat, h: Hash)
    requires IsHistory(states, events) && i < |states|
    ensures h in states[i].placements <==> LastAccess(events[..i], h).Some?
    ensures h in states[i].placements ==>
              LastAccess(events[..i], h) == Some(states[i].placements[h].lastAccessedAt)
  {
    if i > 0 {
      assert events[..i][..i - 1] == events[..i - 1] && events[..i][i - 1] == events[i - 1];
      LastAccessedIsLastEvent(states, events, i - 1, h);
      LastAccessStep(states[i - 1], events[i - 1], h);
    }
  }

  lemma {:induction false} PlacementsStay(states: seq<Tables>, events: seq<Event>, i: nat, j: nat, h: Hash)
    requires IsHistory(states, events) && i <= j < |states| && h in states[i].placements
    ensures h in states[j].placements
    decreases j - i
  {
    if i < j {
      PlacementsStay(states, events, i, j - 1, h);
      LastAccessStep(states[j - 1], events[j - 1], h);
    }
  }

  /** No idleness up to a bound is recency at that bound. */
  lemma NotIdleUpToIff(p: Placed, config: Config, bound: int)
    ensures (forall u :: u <= bound ==> !IdlePastThreshold(p, config, u)) <==>
            p.lastAccessedAt >= bound - config.idleThreshold
  {
    if forall u :: u <= bound ==> !IdlePastThreshold(p, config, u) {
      assert !IdlePastThreshold(p, config, bound);
    }
  }

  /** Exactly when hysteresis holds: a hash that qualified for promotion at time `t` is not
      idle for demotion before the difference of the two thresholds has passed if and only
      if the last access recorded for it is no older than the promotion window at `t`. */
  lemma HysteresisIff(states: seq<Tables>, events: seq<Event>, i: nat, j: nat, h: Hash, config: Config, t: int)
    requires IsHistory(states, events) && i <= j < |states|
    requires EvaluatePromotion(states[i], h, config, t) == Qualifies
    ensures h in states[j].placements && LastAccess(events[..j], h).Some?
    ensures (forall u :: u <= t + config.idleThreshold - config.frequencyWindow ==>
               !IdlePastThreshold(states[j].placements[h], config, u)) <==>
            LastAccess(events[..j], h).value >= t - config.frequencyWindow
    ensures (forall u :: u <= t + config.idleThreshold - config.frequencyWindow ==>
               !EvaluateDemotion(states[j], h, config, u)) <==>
            !states[j].placements[h].pinned || LastAccess(events[..j], h).value >= t - config.frequencyWindow
  {
    PlacementsStay(states, events, i, j, h);
    LastAccessedIsLastEvent(states, events, j, h);
    var p, bound := states[j].placements[h], t + config.idleThreshold - config.frequencyWindow;
    NotIdleUpToIff(p, config, bound);
    assert forall u :: EvaluateDemotion(states[j], h, config, u) <==> p.pinned && IdlePastThreshold(p, config, u);
    if p.pinned && IdlePastThreshold(p, config, bound) {
      assert EvaluateDemotion(states[j], h, config, bound);
    }
  }

  /** In particular, a hash that qualifies for promotion is not idle for demotion before the
      difference of the two thresholds has passed, if its accesses are recorded in order. */
  lemma Hysteresis(states: seq<Tables>, events: seq<Event>, i: nat, j: nat, h: Hash, config: Config, t: int, u: int)
    requires IsHistory(states, events) && i <= j < |states| && InOrder(events, h)
    requires config.frequencyThreshold >= 1
    requires EvaluatePromotion(states[i], h, config, t) == Qualifies
    requires u <= t + config.idleThreshold - config.frequencyWindow
    ensures h in states[j].placements && !IdlePastThreshold(states[j].placements[h], config, u)
    ensures !EvaluateDemotion(states[j], h, config, u)
  {
    var recent := Recent(states[i].accesses, h, t - config.frequencyWindow);
    assert |recent| >= 1;
    RecentMembers(states[i].accesses, h, t - config.frequencyWindow);
    assert recent[0] in recent;
    var a := Access(h, recent[0]);
    StoredWasRecorded(states, events, i, a);
    var k :| 0 <= k < i && events[k].Accessed? && events[k].hash == h && AccessTime(events[k]) == a.at;
    LastAccessIsLatest(states, events, j, h, k);
  }

  /** A back-dated access makes a hash that qualifies for promotion idle at once. */
  lemma BackdatedAccessBreaksHysteresis() returns (states: seq<Tables>, events: seq<Event>, config: Config)
    ensures IsHistory(states, events) && |states| == 3
    ensures config.frequencyThreshold >= 1 && config.frequencyWindow <= config.idleThreshold
    ensures EvaluatePromotion(states[2], "h", config, 100) == Qualifies
    ensures "h" in states[2].placements && IdlePastThreshold(states[2].placements["h"], config, 100)
  {
    config := Config(1, 10, 0.0, 20, 0, 1, map[]);
    var o := AccessOptions(Some(100), Some(true), None, None, Some(1.0), config);
    var e0, e1 := Accessed("h", o, 100), Accessed("h", o.(at := Some(80 - 1)), 100);
    var s0 := Tables(map[], []);
    var s1 := Apply(s0, e0);
    assert s0.accesses + [Access("h", 100)] == [Access("h", 100)];
    PrunedOne([], Access("h", 100), 80);
    assert s1.accesses == [Access("h", 100)];
    var s2 := Apply(s1, e1);
    PrunedOne(s1.accesses, Access("h", 79), 80);
    PrunedOne([], Access("h", 100), 80);
    assert s2.accesses == [Access("h", 100)];
    RecentSnoc([], Access("h", 100), "h", 90);
    assert [] + [Access("h", 100)] == s2.accesses;
    MeanStep(1.0, 1, 1.0);
    states, events := [s0, s1, s2], [e0, e1];
  }

  lemma PrunedOne(log: seq<Access>, a: Access, cutoff: int)
    ensures Pruned(log + [a], a.hash, cutoff) == Pruned(log, a.hash, cutoff) + if a.at < cutoff then [] else [a]
  {
    assert (log + [a])[..|log|] == log;
  }

  // ---- a row against everything recorded for its hash ---------------------------------------

  /** The last value supplied with an access to the hash. */
  ghost function LastSupplied<T>(events: seq<Event>, h: Hash, field: AccessOptions -> Option<T>): Option<T> {
    if events == [] then None
    else
      var last := events[|events| - 1];
      if last.Accessed? && last.hash == h && field(last.options).Some? then field(last.options)
      else LastSupplied(events[..|events| - 1], h, field)
  }

  /** How many accesses were recorded for the hash. */
  ghost function AccessesOf(events: seq<Event>, h: Hash): nat {
    if events == [] then 0
    else
      var last := events[|events| - 1];
      AccessesOf(events[..|events| - 1], h) + if last.Accessed? && last.hash == h then 1 else 0
  }

  /** What the hash was last pinned or unpinned to. */
  ghost function LastPin(events: seq<Event>, h: Hash): bool {
    if events == [] then false
    else
      var last := events[|events| - 1];
      if last.Pin? && last.hash == h then last.pinned else LastPin(events[..|events| - 1], h)
  }

  /** Each field of a row is the one last supplied, whatever was left out since: a batch
      row of no size and no class to begin with. */
  ghost predicate ShowsLastSupplied(p: Placed, events: seq<Event>, h: Hash) {
    var interactive := LastSupplied(events, h, (o: AccessOptions) => o.interactive);
    var size := LastSupplied(events, h, (o: AccessOptions) => o.sizeBytes);
    && p.interactive == (interactive == Some(true))
    && (if size.Some? then p.sizeBytes == size.value else p.sizeBytes == 0)
    && p.costClass == LastSupplied(events, h, (o: AccessOptions) => o.costClass)
    && p.accessCount == AccessesOf(events, h)
    && p.pinned == LastPin(events, h)
  }

  ghost predicate RowShows(t: Tables, events: seq<Event>, h: Hash) {
    if h in t.placements then ShowsLastSupplied(t.placements[h], events, h)
    else forall k :: 0 <= k < |events| ==> events[k].hash != h
  }

  lemma {:induction false} UntouchedShowsNothing(events: seq<Event>, h: Hash)
    requires forall k :: 0 <= k < |events| ==> events[k].hash != h
    ensures LastSupplied(events, h, (o: AccessOptions) => o.interactive) == None
    ensures LastSupplied(events, h, (o: AccessOptions) => o.sizeBytes) == None
    ensures LastSupplied(events, h, (o: AccessOptions) => o.costClass) == None
    ensures AccessesOf(events, h) == 0 && !LastPin(events, h)
  {
    if events != [] {
      UntouchedShowsNothing(events[..|events| - 1], h);
    }
  }

  lemma RowShowsOneMore(t: Tables, events: seq<Event>, ev: Event, h: Hash)
    requires Enabled(t, ev) && RowShows(t, events, h)
    ensures RowShows(Apply(t, ev), events + [ev], h)
  {
    var all := events + [ev];
    assert all[..|events|] == events && all[|events|] == ev;
    if h !in t.placements {
      UntouchedShowsNothing(events, h);
    }
    if h !in Apply(t, ev).placements {
      assert forall k :: 0 <= k < |events| ==> all[k] == events[k];
    }
  }

  /** A row shows what was last supplied for its hash. */
  lemma {:induction false} RowShowsLastSupplied(states: seq<Tables>, events: seq<Event>, i: nat, h: Hash)
    requires IsHistory(states, events) && i < |states|
    ensures RowShows(states[i], events[..i], h)
  {
    if i > 0 {
      RowShowsLastSupplied(states, events, i - 1, h);
      assert events[..i] == events[..i - 1] + [events[i - 1]];
      assert Enabled(states[i - 1], events[i - 1]);
      RowShowsOneMore(states[i - 1], events[..i - 1], events[i - 1], h);
    }
  }

  // ---- promotion against the full history ---------------------------------------------------

  /** The accesses to the hash recorded with a time from `cutoff` on. */
  ghost function AccessesSince(events: seq<Event>, h: Hash, cutoff: int): nat {
    if events == [] then 0
    else
      var last := events[|events| - 1];
      var at := if !last.Accessed? then 0 else if last.options.at.Some? then last.options.at.value else last.now;
      AccessesSince(events[..|events| - 1], h, cutoff)
        + if last.Accessed? && last.hash == h && at >= cutoff then 1 else 0
  }

  lemma {:induction false} RecentCountsAccesses(events: seq<Event>, h: Hash, cutoff: int)
    ensures |Recent(FullLog(events), h, cutoff)| == AccessesSince(events, h, cutoff)
  {
    if events != [] {
      var init, last := events[..|events| - 1], events[|events| - 1];
      RecentCountsAccesses(init, h, cutoff);
      if last.Accessed? {
        RecentSnoc(FullLog(init), Access(last.hash, AccessTime(last)), h, cutoff);
      }
    }
  }

  /** The observed cost, once there are enough samples, or else the prior of the class. */
  ghost predicate CostsMoreThan(p: Placed, config: Config, threshold: real) {
    if p.observed.Some? && p.samples >= config.observedMinSamples then p.observed.value > threshold
    else p.costClass.Some? && p.costClass.value in config.classPriors
         && config.classPriors[p.costClass.value] > threshold
  }

  /** The reason of a refusal is the first test that fails. */
  lemma RefusalReason(t: Tables, h: Hash, config: Config, now: int)
    ensures var reason := EvaluatePromotion(t, h, config, now);
            && (reason == NoPlacement <==> h !in t.placements)
            && (h in t.placements ==>
                  var p := t.placements[h];
                  && (reason == AlreadyPinned <==> p.pinned)
                  && (reason == NotInteractive <==> !p.pinned && !p.interactive)
                  && (reason == CostBelowThreshold <==>
                        !p.pinned && p.interactive && !CostsMoreThan(p, config, config.costThreshold)))
  {
  }

  /** All accesses were recorded under this configuration, no later than now. */
  ghost predicate Configured(events: seq<Event>, h: Hash, config: Config, now: int) {
    forall k :: 0 <= k < |events| && events[k].Accessed? && events[k].hash == h ==>
      events[k].options.config == config && events[k].now <= now
  }

  /** A hash qualifies for promotion exactly when it was accessed, is not pinned, is
      interactive, costs more than the threshold, and was accessed at least as often within
      the window as the threshold asks, counted over everything ever recorded: pruning the
      log under the same configuration loses none of it. */
  lemma QualifiesIff(states: seq<Tables>, events: seq<Event>, i: nat, h: Hash, config: Config, now: int)
    requires IsHistory(states, events) && i < |states| && Configured(events[..i], h, config, now)
    ensures EvaluatePromotion(states[i], h, config, now) == Qualifies <==>
            && h in states[i].placements
            && !states[i].placements[h].pinned && states[i].placements[h].interactive
            && CostsMoreThan(states[i].placements[h], config, config.costThreshold)
            && AccessesSince(events[..i], h, now - config.frequencyWindow) >= config.frequencyThreshold
    ensures CountWithinWindow(states[i], h, config.idleThreshold, now) ==
            AccessesSince(events[..i], h, now - config.idleThreshold)
  {
    WindowCountsAccesses(states, events, i, h, config, config.frequencyWindow, now);
    WindowCountsAccesses(states, events, i, h, config, config.idleThreshold, now);
  }

  lemma WindowCountsAccesses(
    states: seq<Tables>, events: seq<Event>, i: nat, h: Hash, config: Config, window: int, now: int)
    requires IsHistory(states, events) && i < |states| && Configured(events[..i], h, config, now)
    requires window == config.frequencyWindow || window == config.idleThreshold
    ensures CountWithinWindow(states[i], h, window, now) == AccessesSince(events[..i], h, now - window)
  {
    PrunedLogCountsAll(states, events, i, h, window, now);
    RecentCountsAccesses(events[..i], h, now - window);
  }

  // ---- the rolling mean ------------------------------------------------------------------------------

  /** The timing supplied with an event for a hash, if there is one. */
  function SampleOf(ev: Event, h: Hash): seq<real> {
    if IsAccess(ev, h) && ev.options.rehydrationMs.Some? then [ev.options.rehydrationMs.value] else []
  }

  /** The timings supplied for a hash, in order. */
  function Samples(events: seq<Event>, h: Hash): seq<real> {
    if events == [] then []
    else Samples(events[..|events| - 1], h) + SampleOf(events[|events| - 1], h)
  }

  function Sum(s: seq<real>): real {
    if s == [] then 0.0 else Sum(s[..|s| - 1]) + s[|s| - 1]
  }

  lemma MeanStep(mean: real, n: nat, sample: real)
    ensures (mean * (n as real) + sample) / ((n + 1) as real) * ((n + 1) as real) == mean * (n as real) + sample
  {
  }

  ghost predicate IsMean(observed: Option<real>, count: nat, samples: seq<real>) {
    && count == |samples|
    && (observed.Some? <==> samples != [])
    && (observed.Some? ==> observed.value * (count as real) == Sum(samples))
  }

  lemma MeanOneMore(observed: Option<real>, samples: seq<real>, sample: real)
    requires IsMean(observed, |samples|, samples)
    ensures IsMean(RollingMean(observed, |samples|, Some(sample)), |samples| + 1, samples + [sample])
  {
    assert (samples + [sample])[..|samples|] == samples;
    if observed.Some? {
      MeanStep(observed.value, |samples|, sample);
    }
  }

  /** The row of a hash shows the mean of these timings; without a row there are none. */
  ghost predicate ShowsMean(t: Tables, h: Hash, samples: seq<real>) {
    if h in t.placements then IsMean(t.placements[h].observed, t.placements[h].samples, samples) else samples == []
  }

  lemma MeanAfter(t: Tables, ev: Event, h: Hash, samples: seq<real>)
    requires Enabled(t, ev) && ShowsMean(t, h, samples)
    ensures ShowsMean(Apply(t, ev), h, samples + SampleOf(ev, h))
  {
    if IsAccess(ev, h) && ev.options.rehydrationMs.Some? {
      var observed := if h in t.placements then t.placements[h].observed else None;
      MeanOneMore(observed, samples, ev.options.rehydrationMs.value);
    } else {
      assert samples + SampleOf(ev, h) == samples;
    }
  }

  /** The observed cost is the arithmetic mean of all timings, and absent without any. */
  lemma {:induction false} ObservedIsMean(states: seq<Tables>, events: seq<Event>, i: nat, h: Hash)
    requires IsHistory(states, events) && i < |states|
    ensures ShowsMean(states[i], h, Samples(events[..i], h))
  {
    if i > 0 {
      assert events[..i][..i - 1] == events[..i - 1] && events[..i][i - 1] == events[i - 1];
      ObservedIsMean(states, events, i - 1, h);
      assert Enabled(states[i - 1], events[i - 1]);
      MeanAfter(states[i - 1], events[i - 1], h, Samples(events[..i - 1], h));
    }
  }
}
