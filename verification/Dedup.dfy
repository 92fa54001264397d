/**
  The agent's in-flight deduplication (agent/internal/dedup/dedup.go) and how the
  invoke handler uses it (agent/internal/server/invoke.go).

  An entry is identified by its generation, its place in the order of creation: a
  waiting follower keeps a pointer to its entry after the key has moved on, so entries
  live in a growing heap and the table maps a key to the generation that holds it.
 */
module Dedup {
  import opened Wrappers

  datatype Key = Key(executionId: string, stepId: string)

  type Response = string

  /** What a caller receives: a leader's response, or the error of an assumed-dead
      leader. */
  datatype Outcome = Answered(response: Response) | LeaseError

  /** `closes` counts how often the done channel was closed; closing it twice panics. */
  datatype Entry = Entry(key: Key, createdAt: int, resolved: bool, result: Option<Outcome>, expiresAt: int, closes: nat)

  datatype Table = Table(entries: map<Key, nat>, heap: seq<Entry>)

  datatype Config = Config(ttl: int, maxLease: int)

  // ---- the store's operations on values --------------------------------------------

  ghost predicate WellFormed(t: Table) {
    forall k :: k in t.entries ==> t.entries[k] < |t.heap| && t.heap[t.entries[k]].key == k
  }

  predicate IsCurrent(t: Table, g: nat)
    requires g < |t.heap|
  {
    t.heap[g].key in t.entries && t.entries[t.heap[g].key] == g
  }

  predicate Expired(e: Entry, now: int) {
    e.resolved && now > e.expiresAt
  }

  predicate Overdue(cfg: Config, e: Entry, now: int) {
    !e.resolved && cfg.maxLease > 0 && now - e.createdAt > cfg.maxLease
  }

  function NewEntry(k: Key, now: int): Entry {
    Entry(k, now, false, None, 0, 0)
  }

  function Forced(e: Entry): Entry {
    e.(result := Some(LeaseError), resolved := true, closes := e.closes + 1)
  }

  function Settled(cfg: Config, e: Entry, response: Response, now: int): Entry {
    e.(result := Some(Answered(response)), resolved := true, expiresAt := now + cfg.ttl, closes := e.closes + 1)
  }

  function Swept(cfg: Config, t: Table, now: int): Table
    requires WellFormed(t)
  {
    Table(
      map k | k in t.entries && !Expired(t.heap[t.entries[k]], now) && !Overdue(cfg, t.heap[t.entries[k]], now) ::
        t.entries[k],
      seq(|t.heap|, g requires 0 <= g < |t.heap| =>
        if IsCurrent(t, g) && Overdue(cfg, t.heap[g], now) then Forced(t.heap[g]) else t.heap[g]))
  }

  function Led(t: Table, k: Key, now: int): Table {
    Table(t.entries[k := |t.heap|], t.heap + [NewEntry(k, now)])
  }

  /** Attach after its sweep: joins the current entry or leads a new one. */
  function Attached(t: Table, k: Key, now: int): Table {
    if k in t.entries then t else Led(t, k, now)
  }

  function Resolved(cfg: Config, t: Table, k: Key, response: Response, createAt: int, now: int): Table
    requires WellFormed(t)
  {
    var present := Attached(t, k, createAt);
    var g := present.entries[k];
    if present.heap[g].resolved then present
    else present.(heap := present.heap[g := Settled(cfg, present.heap[g], response, now)])
  }

  // ---- the store --------------------------------------------------------------------

  class Store {
    const cfg: Config
    var entries: map<Key, nat>
    var heap: seq<Entry>

    ghost function Contents(): Table
      reads this
    {
      Table(entries, heap)
    }

    constructor (ttl: int, maxLease: int)
      ensures cfg == Config(ttl, maxLease) && Contents() == Table(map[], [])
    {
      cfg := Config(ttl, maxLease);
      entries, heap := map[], [];
    }

    method SweepEntry(k: Key, now: int)
      requires k in entries && entries[k] < |heap|
      modifies this
      ensures Contents() == SweptKey(cfg, old(Contents()), k, now)
    {
      var g := entries[k];
      if Expired(heap[g], now) {
        entries := entries - {k};
      } else if Overdue(cfg, heap[g], now) {
        heap := heap[g := Forced(heap[g])];
        entries := entries - {k};
      }
    }

    /** sweepLocked: visits every key of the table, in any order. */
    method SweepLocked(now: int)
      requires WellFormed(Contents())
      modifies this
      ensures Contents() == Swept(cfg, old(Contents()), now)
      ensures WellFormed(Contents())
      ensures forall k :: k in entries <==> k in old(entries) && StaysCurrent(cfg, old(heap)[old(entries)[k]], now)
      ensures |heap| == |old(heap)| && forall g :: 0 <= g < |heap| ==>
                heap[g] == if IsCurrent(old(Contents()), g) && !old(heap)[g].resolved
                              && !StaysCurrent(cfg, old(heap)[g], now)
                           then old(heap)[g].(result := Some(LeaseError), resolved := true,
                                              closes := old(heap)[g].closes + 1)
                           else old(heap)[g]
    {
      ghost var start := Contents();
      var unvisited := entries.Keys;
      SweptNone(cfg, start, now);
      while unvisited != {}
        invariant unvisited <= entries.Keys
        invariant SweptExcept(cfg, start, Contents(), unvisited, now)
        decreases |unvisited|
      {
        var k :| k in unvisited;
        SweepOne(cfg, start, Contents(), unvisited, k, now);
        SweepEntry(k, now);
        unvisited := unvisited - {k};
      }
      SweptAll(cfg, start, Contents(), now);
      SweptStays(cfg, start, now);
    }

    /** Attach. The clock is read once by the sweep and once for a new entry. */
    method Attach(k: Key, sweepAt: int, grantAt: int) returns (generation: nat, isLeader: bool)
      requires WellFormed(Contents())
      modifies this
      ensures WellFormed(Contents())
      ensures var swept := Swept(cfg, old(Contents()), sweepAt);
              && Contents() == Attached(swept, k, grantAt)
              && (isLeader <==> k !in old(entries) || !StaysCurrent(cfg, old(heap)[old(entries)[k]], sweepAt))
              && k in entries && generation == entries[k]
              && (isLeader ==> generation == |old(heap)|)
    {
      SweepLocked(sweepAt);
      if k in entries {
        return entries[k], false;
      }
      entries := entries[k := |heap|];
      heap := heap + [NewEntry(k, grantAt)];
      return |heap| - 1, true;
    }

    /** Resolve. */
    method Resolve(k: Key, response: Response, createAt: int, now: int)
      requires WellFormed(Contents())
      modifies this
      ensures Contents() == Resolved(cfg, old(Contents()), k, response, createAt, now)
      ensures WellFormed(Contents())
    {
      if k !in entries {
        entries := entries[k := |heap|];
        heap := heap + [NewEntry(k, createAt)];
      }
      var e := heap[entries[k]];
      if e.resolved {
        return;
      }
      heap := heap[entries[k] := Settled(cfg, e, response, now)];
    }

    /** What a follower of an entry finds once the entry's channel is closed. */
    method Forward(generation: nat) returns (result: Option<Outcome>)
      requires generation < |heap|
      ensures result == if heap[generation].resolved then heap[generation].result else None
    {
      result := if heap[generation].resolved then heap[generation].result else None;
    }
  }

  /** A sweep leaves an entry alone: answered and not older than the ttl, or waiting and not
      older than the maximal lease, if there is one. */
  ghost predicate StaysCurrent(cfg: Config, e: Entry, now: int) {
    if e.resolved then now <= e.expiresAt else cfg.maxLease <= 0 || now - e.createdAt <= cfg.maxLease
  }

  lemma SweptStays(cfg: Config, t: Table, now: int)
    requires WellFormed(t)
    ensures var s := Swept(cfg, t, now);
            && (forall k :: k in s.entries <==> k in t.entries && StaysCurrent(cfg, t.heap[t.entries[k]], now))
            && forall g :: 0 <= g < |t.heap| ==>
                 s.heap[g] == if IsCurrent(t, g) && !t.heap[g].resolved && !StaysCurrent(cfg, t.heap[g], now)
                              then t.heap[g].(result := Some(LeaseError), resolved := true,
                                              closes := t.heap[g].closes + 1)
                              else t.heap[g]
  {
  }

  /** The sweep with the keys of `unvisited` still to go. */
  ghost predicate SweptExcept(cfg: Config, start: Table, t: Table, unvisited: set<Key>, now: int)
    requires WellFormed(start)
  {
    && |t.heap| == |start.heap|
    && (forall k :: k in t.entries <==> k in start.entries && (k in unvisited || k in Swept(cfg, start, now).entries))
    && (forall k :: k in t.entries ==> t.entries[k] == start.entries[k])
    && (forall g :: 0 <= g < |t.heap| ==>
          t.heap[g] == if start.heap[g].key in unvisited then start.heap[g] else Swept(cfg, start, now).heap[g])
  }

  lemma SweptNone(cfg: Config, start: Table, now: int)
    requires WellFormed(start)
    ensures SweptExcept(cfg, start, start, start.entries.Keys, now)
  {
  }

  function SweptKey(cfg: Config, t: Table, k: Key, now: int): Table
    requires k in t.entries && t.entries[k] < |t.heap|
  {
    var g := t.entries[k];
    if Expired(t.heap[g], now) then t.(entries := t.entries - {k})
    else if Overdue(cfg, t.heap[g], now) then Table(t.entries - {k}, t.heap[g := Forced(t.heap[g])])
    else t
  }

  lemma SweepOne(cfg: Config, start: Table, t: Table, unvisited: set<Key>, k: Key, now: int)
    requires WellFormed(start) && SweptExcept(cfg, start, t, unvisited, now)
    requires k in unvisited && unvisited <= t.entries.Keys
    ensures t.entries[k] < |t.heap|
    ensures unvisited - {k} <= SweptKey(cfg, t, k, now).entries.Keys
    ensures SweptExcept(cfg, start, SweptKey(cfg, t, k, now), unvisited - {k}, now)
  {
    var g := start.entries[k];
    var s, next := Swept(cfg, start, now), SweptKey(cfg, t, k, now);
    assert t.heap[g] == start.heap[g];
    forall h | 0 <= h < |t.heap|
      ensures next.heap[h] == if start.heap[h].key in unvisited - {k} then start.heap[h] else s.heap[h]
    {
    }
  }

  lemma SweptAll(cfg: Config, start: Table, t: Table, now: int)
    requires WellFormed(start) && SweptExcept(cfg, start, t, {}, now)
    ensures t == Swept(cfg, start, now)
    ensures WellFormed(t)
  {
    assert t.entries == Swept(cfg, start, now).entries;
    assert t.heap == Swept(cfg, start, now).heap;
  }

  // ---- the agent: concurrent handlers over one store -----------------------------------

  /**
    `running` holds the leaders whose subprocess has not come back; `answers` what a
    leader's subprocess returned; `now` the last reading of the clock.
   */
  datatype Agent = Agent(table: Table, running: set<nat>, answers: map<nat, Response>, now: int)

  /** One acquisition of the store's lock. */
  datatype Event =
    | Request(key: Key, sweepAt: int, grantAt: int)
    | Finish(leader: nat, response: Response, createAt: int, resolveAt: int)
    | Tick(at: int)

  ghost predicate Enabled(a: Agent, ev: Event) {
    match ev
    case Request(_, sweepAt, grantAt) => a.now <= sweepAt <= grantAt
    case Finish(leader, _, createAt, resolveAt) =>
      leader in a.running && leader < |a.table.heap| && a.now <= createAt <= resolveAt
    case Tick(at) => a.now <= at
  }

  function Step(cfg: Config, a: Agent, ev: Event): Agent
    requires WellFormed(a.table) && (ev.Finish? ==> ev.leader < |a.table.heap|)
  {
    match ev
    case Request(k, sweepAt, grantAt) =>
      var swept := Swept(cfg, a.table, sweepAt);
      a.(table := Attached(swept, k, grantAt),
         running := if k in swept.entries then a.running else a.running + {|a.table.heap|},
         now := grantAt)
    case Finish(g, response, createAt, resolveAt) =>
      a.(table := Resolved(cfg, a.table, a.table.heap[g].key, response, createAt, resolveAt),
         running := a.running - {g},
         answers := a.answers[g := response],
         now := resolveAt)
    case Tick(at) => a.(table := Swept(cfg, a.table, at), now := at)
  }

  ghost predicate Initial(a: Agent) {
    a.table == Table(map[], []) && a.running == {} && a.answers == map[]
  }

  ghost predicate IsTrace(cfg: Config, states: seq<Agent>, events: seq<Event>) {
    && |states| == |events| + 1 && Initial(states[0])
    && forall i {:trigger events[i]} :: 0 <= i < |events| ==>
         && WellFormed(states[i].table) && Enabled(states[i], events[i])
         && states[i + 1] == Step(cfg, states[i], events[i])
  }

  // ---- invariants of every trace -----------------------------------------------------

  /** Two grants of one key are more than this apart. */
  function Spacing(cfg: Config): int {
    if cfg.maxLease > 0 && cfg.maxLease < cfg.ttl then cfg.maxLease else cfg.ttl
  }

  ghost predicate EntryInv(cfg: Config, t: Table, now: int, g: nat)
    requires g < |t.heap|
  {
    var e := t.heap[g];
    && e.createdAt <= now
    && e.closes == (if e.resolved then 1 else 0)
    && (e.resolved <==> e.result.Some?)
    && (!e.resolved ==> IsCurrent(t, g))
    && (if IsCurrent(t, g) then e.resolved ==> e.expiresAt >= e.createdAt + cfg.ttl
        else now > e.createdAt + Spacing(cfg))
    && (IsCurrent(t, g) ==> e.result != Some(LeaseError))
  }

  ghost predicate TableInv(cfg: Config, t: Table, now: int) {
    && WellFormed(t)
    && (forall g: nat :: g < |t.heap| ==> EntryInv(cfg, t, now, g))
    && (forall g: nat, h: nat :: g < h < |t.heap| && t.heap[g].key == t.heap[h].key ==>
          !IsCurrent(t, g) && t.heap[h].createdAt > t.heap[g].createdAt + Spacing(cfg))
  }

  ghost predicate AgentInv(cfg: Config, a: Agent) {
    && TableInv(cfg, a.table, a.now)
    && (forall g :: g in a.running ==> g < |a.table.heap|)
  }

  lemma SweptInv(cfg: Config, t: Table, before: int, now: int)
    requires TableInv(cfg, t, before) && before <= now
    ensures TableInv(cfg, Swept(cfg, t, now), now)
  {
    var s := Swept(cfg, t, now);
    forall g: nat | g < |s.heap|
      ensures EntryInv(cfg, s, now, g)
    {
      assert EntryInv(cfg, t, before, g);
    }
  }

  lemma LedInv(cfg: Config, t: Table, k: Key, before: int, now: int)
    requires TableInv(cfg, t, before) && before <= now && k !in t.entries
    ensures TableInv(cfg, Led(t, k, now), now)
  {
    var s := Led(t, k, now);
    forall g: nat | g < |s.heap|
      ensures EntryInv(cfg, s, now, g)
    {
      if g < |t.heap| {
        assert EntryInv(cfg, t, before, g);
      }
    }
    forall g: nat, h: nat | g < h < |s.heap| && s.heap[g].key == s.heap[h].key
      ensures !IsCurrent(s, g) && s.heap[h].createdAt > s.heap[g].createdAt + Spacing(cfg)
    {
      assert EntryInv(cfg, t, before, g);
    }
  }

  lemma SettledInv(cfg: Config, t: Table, g: nat, response: Response, before: int, now: int)
    requires TableInv(cfg, t, before) && before <= now && g < |t.heap| && !t.heap[g].resolved
    ensures TableInv(cfg, t.(heap := t.heap[g := Settled(cfg, t.heap[g], response, now)]), now)
  {
    var s := t.(heap := t.heap[g := Settled(cfg, t.heap[g], response, now)]);
    forall h: nat | h < |s.heap|
      ensures EntryInv(cfg, s, now, h)
    {
      assert EntryInv(cfg, t, before, h);
    }
  }

  lemma StepInv(cfg: Config, a: Agent, ev: Event)
    requires AgentInv(cfg, a) && Enabled(a, ev)
    ensures AgentInv(cfg, Step(cfg, a, ev))
  {
    match ev
    case Request(k, sweepAt, grantAt) =>
      var swept := Swept(cfg, a.table, sweepAt);
      SweptInv(cfg, a.table, a.now, sweepAt);
      if k !in swept.entries {
        LedInv(cfg, swept, k, sweepAt, grantAt);
      } else {
        LaterInv(cfg, swept, sweepAt, grantAt);
      }
    case Finish(g, response, createAt, resolveAt) =>
      var k := a.table.heap[g].key;
      LaterInv(cfg, a.table, a.now, createAt);
      if k !in a.table.entries {
        LedInv(cfg, a.table, k, createAt, createAt);
      }
      var present := Attached(a.table, k, createAt);
      LaterInv(cfg, present, createAt, resolveAt);
      if !present.heap[present.entries[k]].resolved {
        SettledInv(cfg, present, present.entries[k], response, resolveAt, resolveAt);
      }
    case Tick(at) =>
      SweptInv(cfg, a.table, a.now, at);
  }

  lemma LaterInv(cfg: Config, t: Table, before: int, now: int)
    requires TableInv(cfg, t, before) && before <= now
    ensures TableInv(cfg, t, now)
  {
    forall g: nat | g < |t.heap|
      ensures EntryInv(cfg, t, now, g)
    {
      assert EntryInv(cfg, t, before, g);
    }
  }

  lemma {:induction false} TraceInv(cfg: Config, states: seq<Agent>, events: seq<Event>, i: nat)
    requires IsTrace(cfg, states, events) && i < |states|
    ensures AgentInv(cfg, states[i])
  {
    if i > 0 {
      TraceInv(cfg, states, events, i - 1);
      StepInv(cfg, states[i - 1], events[i - 1]);
    }
  }

  /** No entry is forgotten or rewritten: a result, once there, stays. */
  ghost predicate Follows(earlier: Agent, later: Agent) {
    && |earlier.table.heap| <= |later.table.heap|
    && forall g: nat :: g < |earlier.table.heap| ==>
         var before, after := earlier.table.heap[g], later.table.heap[g];
         && after.key == before.key && after.createdAt == before.createdAt
         && (before.resolved ==> after == before)
  }

  lemma StepFollows(cfg: Config, a: Agent, ev: Event)
    requires AgentInv(cfg, a) && Enabled(a, ev)
    ensures Follows(a, Step(cfg, a, ev))
  {
  }

  lemma {:induction false} TraceFollows(cfg: Config, states: seq<Agent>, events: seq<Event>, i: nat, j: nat)
    requires IsTrace(cfg, states, events) && i <= j < |states|
    ensures Follows(states[i], states[j])
    decreases j - i
  {
    if i < j {
      TraceFollows(cfg, states, events, i, j - 1);
      TraceInv(cfg, states, events, j - 1);
      StepFollows(cfg, states[j - 1], events[j - 1]);
    }
  }

  // ---- what holds whatever the leaders do -----------------------------------------------

  /** An entry's channel is closed at most once, exactly when its result is set, and any
      two looks at a set result, by whichever followers and however far apart, agree. */
  lemma OneResultPerEntry(cfg: Config, states: seq<Agent>, events: seq<Event>, i: nat, j: nat, g: nat)
    requires IsTrace(cfg, states, events) && i <= j < |states| && g < |states[i].table.heap|
    ensures g < |states[j].table.heap|
    ensures states[j].table.heap[g].closes <= 1
    ensures states[j].table.heap[g].closes == 1 <==> states[j].table.heap[g].result.Some?
    ensures states[i].table.heap[g].result.Some? ==>
              states[j].table.heap[g].result == states[i].table.heap[g].result
  {
    TraceFollows(cfg, states, events, i, j);
    TraceInv(cfg, states, events, i);
    TraceInv(cfg, states, events, j);
    assert EntryInv(cfg, states[i].table, states[i].now, g);
    assert EntryInv(cfg, states[j].table, states[j].now, g);
  }

  /** Two entries of one key, and so two leader grants, are more than min(ttl, maxLease)
      apart, or more than ttl when no maximal lease is set. */
  lemma GrantsAreSpaced(cfg: Config, states: seq<Agent>, events: seq<Event>, i: nat, g: nat, h: nat)
    requires IsTrace(cfg, states, events) && i < |states|
    requires g < h < |states[i].table.heap| && states[i].table.heap[g].key == states[i].table.heap[h].key
    ensures states[i].table.heap[h].createdAt - states[i].table.heap[g].createdAt >
              if cfg.maxLease > 0 && cfg.maxLease < cfg.ttl then cfg.maxLease else cfg.ttl
  {
    TraceInv(cfg, states, events, i);
  }

  // ---- how long an entry answers -----------------------------------------------------------

  /** The event asks for this key, or is the return of a subprocess started for it. */
  ghost predicate IsAbout(a: Agent, ev: Event, k: Key) {
    match ev
    case Request(key, _, _) => key == k
    case Finish(g, _, _, _) => g < |a.table.heap| && a.table.heap[g].key == k
    case Tick(_) => false
  }

  /** Entry `h` of the key was answered, for callers up to `until`: it holds its key, or
      that moment is over. */
  ghost predicate AnswersUntil(a: Agent, k: Key, h: nat, response: Response, until: int) {
    && h < |a.table.heap| && a.table.heap[h].key == k
    && a.table.heap[h].resolved && a.table.heap[h].result == Some(Answered(response))
    && a.table.heap[h].expiresAt == until
    && if k in a.table.entries then a.table.entries[k] == h else a.now > until
  }

  /** Entry `h` of the key was granted then and not answered since: it holds its key and
      waits, or it was given up for its age. */
  ghost predicate WaitsSince(cfg: Config, a: Agent, k: Key, h: nat, grantAt: int) {
    && h < |a.table.heap| && a.table.heap[h].key == k && a.table.heap[h].createdAt == grantAt
    && if k in a.table.entries then a.table.entries[k] == h && !a.table.heap[h].resolved
       else cfg.maxLease > 0 && a.now > grantAt + cfg.maxLease
  }

  lemma OthersLeaveAnswer(cfg: Config, a: Agent, ev: Event, k: Key, h: nat, response: Response, until: int)
    requires AgentInv(cfg, a) && Enabled(a, ev) && !IsAbout(a, ev, k) && AnswersUntil(a, k, h, response, until)
    ensures AnswersUntil(Step(cfg, a, ev), k, h, response, until)
  {
  }

  lemma OthersLeaveWaiting(cfg: Config, a: Agent, ev: Event, k: Key, h: nat, grantAt: int)
    requires AgentInv(cfg, a) && Enabled(a, ev) && !IsAbout(a, ev, k) && WaitsSince(cfg, a, k, h, grantAt)
    ensures WaitsSince(cfg, Step(cfg, a, ev), k, h, grantAt)
  {
  }

  /** Nothing between the two events is about the key. */
  ghost predicate Quiet(states: seq<Agent>, events: seq<Event>, f: nat, q: nat, k: Key)
    requires q <= |events| < |states|
  {
    forall m {:trigger events[m]} :: f < m < q ==> !IsAbout(states[m], events[m], k)
  }

  lemma {:induction false} AnswerStands(
    cfg: Config, states: seq<Agent>, events: seq<Event>, f: nat, q: nat, k: Key, h: nat, response: Response, until: int)
    requires IsTrace(cfg, states, events) && f < q <= |events| && Quiet(states, events, f, q, k)
    requires AnswersUntil(states[f + 1], k, h, response, until)
    ensures AnswersUntil(states[q], k, h, response, until)
    decreases q
  {
    if f + 1 < q {
      AnswerStands(cfg, states, events, f, q - 1, k, h, response, until);
      AnswerStandsNext(cfg, states, events, q - 1, k, h, response, until);
    }
  }

  lemma AnswerStandsNext(
    cfg: Config, states: seq<Agent>, events: seq<Event>, m: nat, k: Key, h: nat, response: Response, until: int)
    requires IsTrace(cfg, states, events) && m < |events| && !IsAbout(states[m], events[m], k)
    requires AnswersUntil(states[m], k, h, response, until)
    ensures AnswersUntil(states[m + 1], k, h, response, until)
  {
    TraceInv(cfg, states, events, m);
    assert Enabled(states[m], events[m]);
    OthersLeaveAnswer(cfg, states[m], events[m], k, h, response, until);
  }

  lemma {:induction false} WaitStands(
    cfg: Config, states: seq<Agent>, events: seq<Event>, f: nat, q: nat, k: Key, h: nat, grantAt: int)
    requires IsTrace(cfg, states, events) && f < q <= |events| && Quiet(states, events, f, q, k)
    requires WaitsSince(cfg, states[f + 1], k, h, grantAt)
    ensures WaitsSince(cfg, states[q], k, h, grantAt)
    decreases q
  {
    if f + 1 < q {
      WaitStands(cfg, states, events, f, q - 1, k, h, grantAt);
      WaitStandsNext(cfg, states, events, q - 1, k, h, grantAt);
    }
  }

  lemma WaitStandsNext(
    cfg: Config, states: seq<Agent>, events: seq<Event>, m: nat, k: Key, h: nat, grantAt: int)
    requires IsTrace(cfg, states, events) && m < |events| && !IsAbout(states[m], events[m], k)
    requires WaitsSince(cfg, states[m], k, h, grantAt)
    ensures WaitsSince(cfg, states[m + 1], k, h, grantAt)
  {
    TraceInv(cfg, states, events, m);
    assert Enabled(states[m], events[m]);
    OthersLeaveWaiting(cfg, states[m], events[m], k, h, grantAt);
  }

  /** The caller joins entry `h` and starts nothing. */
  ghost predicate FollowsEntry(a: Agent, b: Agent, k: Key, h: nat) {
    k in b.table.entries && b.table.entries[k] == h && b.running == a.running && |b.table.heap| == |a.table.heap|
  }

  /** The caller leads a new entry and starts a subprocess for it. */
  ghost predicate LeadsNew(a: Agent, b: Agent, k: Key) {
    var g := |a.table.heap|;
    && |b.table.heap| == g + 1 && k in b.table.entries && b.table.entries[k] == g
    && b.table.heap[g].key == k && !b.table.heap[g].resolved && b.running == a.running + {g}
  }

  lemma RequestOnAnswer(cfg: Config, a: Agent, ev: Event, h: nat, response: Response, until: int)
    requires AgentInv(cfg, a) && ev.Request? && Enabled(a, ev) && AnswersUntil(a, ev.key, h, response, until)
    ensures var b := Step(cfg, a, ev);
            && h < |b.table.heap| && b.table.heap[h].result == Some(Answered(response))
            && if ev.sweepAt <= until then FollowsEntry(a, b, ev.key, h) else LeadsNew(a, b, ev.key)
  {
  }

  lemma RequestOnWaiting(cfg: Config, a: Agent, ev: Event, h: nat, grantAt: int)
    requires AgentInv(cfg, a) && ev.Request? && Enabled(a, ev) && WaitsSince(cfg, a, ev.key, h, grantAt)
    ensures if cfg.maxLease <= 0 || ev.sweepAt <= grantAt + cfg.maxLease
            then FollowsEntry(a, Step(cfg, a, ev), ev.key, h)
            else LeadsNew(a, Step(cfg, a, ev), ev.key)
  {
  }

  lemma FinishAnswers(cfg: Config, a: Agent, ev: Event, k: Key)
    requires AgentInv(cfg, a) && ev.Finish? && Enabled(a, ev) && a.table.heap[ev.leader].key == k
    requires k in a.table.entries ==> !a.table.heap[a.table.entries[k]].resolved
    ensures var b := Step(cfg, a, ev);
            && k in b.table.entries
            && AnswersUntil(b, k, b.table.entries[k], ev.response, ev.resolveAt + cfg.ttl)
            && (k in a.table.entries ==> b.table.entries[k] == a.table.entries[k])
  {
  }

  lemma GrantWaits(cfg: Config, a: Agent, ev: Event)
    requires AgentInv(cfg, a) && ev.Request? && Enabled(a, ev) && LeadsNew(a, Step(cfg, a, ev), ev.key)
    ensures WaitsSince(cfg, Step(cfg, a, ev), ev.key, |a.table.heap|, ev.grantAt)
  {
  }

  /** After a subprocess came back at time r and settled its key, the next caller for the key
      follows that answer exactly when it sweeps no later than r + ttl, and starts a new
      subprocess otherwise, whatever happens to other keys and whenever the ticker runs. */
  lemma AnsweredForTtl(cfg: Config, states: seq<Agent>, events: seq<Event>, f: nat, q: nat, k: Key)
    requires IsTrace(cfg, states, events) && f < q < |events| && Quiet(states, events, f, q, k)
    requires events[f].Finish? && events[f].leader < |states[f].table.heap|
    requires states[f].table.heap[events[f].leader].key == k
    requires k in states[f].table.entries && states[f].table.entries[k] < |states[f].table.heap| ==>
               !states[f].table.heap[states[f].table.entries[k]].resolved
    requires events[q].Request? && events[q].key == k
    ensures k in states[f + 1].table.entries
    ensures var h := states[f + 1].table.entries[k];
            && h < |states[q + 1].table.heap|
            && states[q + 1].table.heap[h].result == Some(Answered(events[f].response))
            && if events[q].sweepAt <= events[f].resolveAt + cfg.ttl
               then FollowsEntry(states[q], states[q + 1], k, h)
               else LeadsNew(states[q], states[q + 1], k)
  {
    TraceInv(cfg, states, events, f);
    TraceInv(cfg, states, events, q);
    assert Enabled(states[f], events[f]) && Enabled(states[q], events[q]);
    FinishAnswers(cfg, states[f], events[f], k);
    var h, until := states[f + 1].table.entries[k], events[f].resolveAt + cfg.ttl;
    AnswerStands(cfg, states, events, f, q, k, h, events[f].response, until);
    RequestOnAnswer(cfg, states[q], events[q], h, events[f].response, until);
  }

  /** After a caller was granted the lead at time a, the next caller for the key, if nothing
      came back for it, follows that entry exactly when there is no maximal lease or it
      sweeps no later than a + maxLease, and starts a new subprocess otherwise. */
  lemma FollowedForMaxLease(cfg: Config, states: seq<Agent>, events: seq<Event>, f: nat, q: nat, k: Key)
    requires IsTrace(cfg, states, events) && f < q < |events| && Quiet(states, events, f, q, k)
    requires events[f].Request? && events[f].key == k && LeadsNew(states[f], states[f + 1], k)
    requires events[q].Request? && events[q].key == k
    ensures if cfg.maxLease <= 0 || events[q].sweepAt <= events[f].grantAt + cfg.maxLease
            then FollowsEntry(states[q], states[q + 1], k, |states[f].table.heap|)
            else LeadsNew(states[q], states[q + 1], k)
  {
    TraceInv(cfg, states, events, f);
    TraceInv(cfg, states, events, q);
    assert Enabled(states[f], events[f]) && Enabled(states[q], events[q]);
    var h := |states[f].table.heap|;
    GrantWaits(cfg, states[f], events[f]);
    WaitStands(cfg, states, events, f, q, k, h, events[f].grantAt);
    RequestOnWaiting(cfg, states[q], events[q], h, events[f].grantAt);
  }

  // ---- when every caller gets its own leader's answer -------------------------------------

  ghost predicate NoLeaseError(a: Agent) {
    forall g: nat :: g < |a.table.heap| ==> a.table.heap[g].result != Some(LeaseError)
  }

  /** Every result was produced by the entry's own leader. */
  ghost predicate OwnResults(a: Agent) {
    forall g: nat :: g < |a.table.heap| && a.table.heap[g].result.Some? ==>
      g in a.answers && a.table.heap[g].result == Some(Answered(a.answers[g]))
  }

  /** Every entry is led: its subprocess is running and the entry still waits for it, or
      the subprocess has returned. */
  ghost predicate EveryEntryLed(a: Agent) {
    && (forall g :: g in a.running ==> g < |a.table.heap| && !a.table.heap[g].resolved)
    && (forall g: nat :: g < |a.table.heap| ==> g in a.running || a.table.heap[g].resolved)
  }

  lemma NoLeaseErrorBefore(earlier: Agent, later: Agent)
    requires Follows(earlier, later) && NoLeaseError(later)
    requires forall g: nat :: g < |earlier.table.heap| ==>
               (earlier.table.heap[g].resolved <==> earlier.table.heap[g].result.Some?)
    ensures NoLeaseError(earlier)
  {
    forall g: nat | g < |earlier.table.heap|
      ensures earlier.table.heap[g].result != Some(LeaseError)
    {
      assert later.table.heap[g].result != Some(LeaseError);
    }
  }

  lemma SweepWithoutForce(cfg: Config, t: Table, now: int)
    requires WellFormed(t)
    requires forall g: nat :: g < |t.heap| ==> Swept(cfg, t, now).heap[g].result != Some(LeaseError)
    ensures Swept(cfg, t, now).heap == t.heap
  {
    var s := Swept(cfg, t, now);
    forall g: nat | g < |t.heap|
      ensures s.heap[g] == t.heap[g]
    {
      assert s.heap[g].result != Some(LeaseError);
    }
  }

  lemma LedStep(cfg: Config, a: Agent, ev: Event)
    requires AgentInv(cfg, a) && Enabled(a, ev) && OwnResults(a) && EveryEntryLed(a)
    requires NoLeaseError(Step(cfg, a, ev))
    ensures OwnResults(Step(cfg, a, ev)) && EveryEntryLed(Step(cfg, a, ev))
  {
    var b := Step(cfg, a, ev);
    match ev
    case Request(k, sweepAt, grantAt) =>
      assert forall g: nat :: g < |a.table.heap| ==> b.table.heap[g] == Swept(cfg, a.table, sweepAt).heap[g];
      SweepWithoutForce(cfg, a.table, sweepAt);
    case Finish(g, response, createAt, resolveAt) =>
      assert EntryInv(cfg, a.table, a.now, g);
      assert a.table.entries[a.table.heap[g].key] == g;
      assert b.table.heap == a.table.heap[g := Settled(cfg, a.table.heap[g], response, resolveAt)];
    case Tick(at) =>
      SweepWithoutForce(cfg, a.table, at);
  }

  lemma {:induction false} LedTrace(cfg: Config, states: seq<Agent>, events: seq<Event>, i: nat)
    requires IsTrace(cfg, states, events) && i < |states| && NoLeaseError(states[i])
    ensures OwnResults(states[i]) && EveryEntryLed(states[i])
  {
    if i > 0 {
      var before, after := states[i - 1], states[i];
      TraceInv(cfg, states, events, i - 1);
      StepFollows(cfg, before, events[i - 1]);
      forall g: nat | g < |before.table.heap|
        ensures before.table.heap[g].resolved <==> before.table.heap[g].result.Some?
      {
        assert EntryInv(cfg, before.table, before.now, g);
      }
      NoLeaseErrorBefore(before, after);
      LedTrace(cfg, states, events, i - 1);
      LedStep(cfg, before, events[i - 1]);
    }
  }

  lemma OwnResultsIffNoLeaseError(cfg: Config, states: seq<Agent>, events: seq<Event>, i: nat)
    requires IsTrace(cfg, states, events) && i < |states|
    ensures OwnResults(states[i]) <==> NoLeaseError(states[i])
  {
    if NoLeaseError(states[i]) {
      LedTrace(cfg, states, events, i);
    }
  }

  // ---- when leaders are on time ----------------------------------------------------------

  function At(ev: Event): int {
    match ev
    case Request(_, sweepAt, _) => sweepAt
    case Finish(_, _, _, resolveAt) => resolveAt
    case Tick(at) => at
  }

  /** The subprocess of leader `g` has been running for longer than the maximal lease. */
  predicate IsLate(cfg: Config, a: Agent, g: nat, now: int) {
    g < |a.table.heap| && cfg.maxLease > 0 && now - a.table.heap[g].createdAt > cfg.maxLease
  }

  /** A sweep, by the ticker or by a request, finds no late leader; a leader that returns
      late before any sweep saw it is on time. */
  ghost predicate SweepsOnTime(cfg: Config, a: Agent, ev: Event) {
    !ev.Finish? ==> forall g :: g in a.running ==> !IsLate(cfg, a, g, At(ev))
  }

  ghost predicate OnTime(cfg: Config, states: seq<Agent>, events: seq<Event>, i: nat)
    requires i <= |events| < |states|
  {
    forall k :: 0 <= k < i ==> SweepsOnTime(cfg, states[k], events[k])
  }

  /** A sweep that finds everyone on time gives nobody up. */
  lemma OnTimeStep(cfg: Config, a: Agent, ev: Event)
    requires WellFormed(a.table) && Enabled(a, ev) && NoLeaseError(a) && EveryEntryLed(a)
    requires SweepsOnTime(cfg, a, ev)
    ensures NoLeaseError(Step(cfg, a, ev))
  {
    if !ev.Finish? {
      var swept := Swept(cfg, a.table, At(ev));
      forall g: nat | g < |a.table.heap|
        ensures swept.heap[g] == a.table.heap[g]
      {
        assert !a.table.heap[g].resolved ==> g in a.running;
      }
    }
  }

  /** A sweep that finds a late leader gives it up. */
  lemma LateStep(cfg: Config, a: Agent, ev: Event)
    requires AgentInv(cfg, a) && Enabled(a, ev) && EveryEntryLed(a) && !SweepsOnTime(cfg, a, ev)
    ensures !NoLeaseError(Step(cfg, a, ev))
  {
    var g :| g in a.running && IsLate(cfg, a, g, At(ev));
    assert EntryInv(cfg, a.table, a.now, g);
    assert Overdue(cfg, a.table.heap[g], At(ev));
    assert Swept(cfg, a.table, At(ev)).heap[g] == Forced(a.table.heap[g]);
    assert Step(cfg, a, ev).table.heap[g].result == Some(LeaseError);
  }

  lemma NoLeaseErrorStepBack(cfg: Config, a: Agent, ev: Event)
    requires AgentInv(cfg, a) && Enabled(a, ev) && NoLeaseError(Step(cfg, a, ev))
    ensures NoLeaseError(a)
  {
    StepFollows(cfg, a, ev);
    forall g: nat | g < |a.table.heap|
      ensures a.table.heap[g].resolved <==> a.table.heap[g].result.Some?
    {
      assert EntryInv(cfg, a.table, a.now, g);
    }
    NoLeaseErrorBefore(a, Step(cfg, a, ev));
  }

  /** Nobody was ever given up exactly when every sweep found all running leaders within
      the maximal lease of their grants. */
  lemma {:induction false} NoLeaseErrorIffOnTime(cfg: Config, states: seq<Agent>, events: seq<Event>, i: nat)
    requires IsTrace(cfg, states, events) && i < |states|
    ensures NoLeaseError(states[i]) <==> OnTime(cfg, states, events, i)
  {
    if i > 0 {
      NoLeaseErrorIffOnTime(cfg, states, events, i - 1);
      LeaseErrorNext(cfg, states, events, i - 1);
      OnTimeOneMore(cfg, states, events, i);
    }
  }

  lemma OnTimeOneMore(cfg: Config, states: seq<Agent>, events: seq<Event>, i: nat)
    requires 0 < i <= |events| < |states|
    ensures OnTime(cfg, states, events, i) <==>
            OnTime(cfg, states, events, i - 1) && SweepsOnTime(cfg, states[i - 1], events[i - 1])
  {
  }

  /** The first lease error comes from the first sweep that finds a late leader. */
  lemma LeaseErrorNext(cfg: Config, states: seq<Agent>, events: seq<Event>, k: nat)
    requires IsTrace(cfg, states, events) && k < |events|
    ensures NoLeaseError(states[k + 1]) <==> NoLeaseError(states[k]) && SweepsOnTime(cfg, states[k], events[k])
  {
    var a, ev := states[k], events[k];
    TraceInv(cfg, states, events, k);
    assert Enabled(a, ev);
    if NoLeaseError(states[k + 1]) {
      NoLeaseErrorStepBack(cfg, a, ev);
    }
    if NoLeaseError(a) {
      LedTrace(cfg, states, events, k);
      if SweepsOnTime(cfg, a, ev) {
        OnTimeStep(cfg, a, ev);
      } else {
        LateStep(cfg, a, ev);
      }
    }
  }

  /** Every follower gets its own leader's answer exactly when every sweep found all
      running leaders within the maximal lease of their grants. */
  lemma OwnResultsIffOnTime(cfg: Config, states: seq<Agent>, events: seq<Event>, i: nat)
    requires IsTrace(cfg, states, events) && i < |states|
    ensures OwnResults(states[i]) <==> OnTime(cfg, states, events, i)
  {
    NoLeaseErrorIffOnTime(cfg, states, events, i);
    OwnResultsIffNoLeaseError(cfg, states, events, i);
  }

  // ---- overlapping subprocesses ------------------------------------------------------------

  /** No key has two subprocesses running. */
  ghost predicate NoOverlap(a: Agent) {
    forall g, h :: g in a.running && h in a.running && SameKey(a, g, h) ==> g == h
  }

  predicate SameKey(a: Agent, g: nat, h: nat) {
    g < |a.table.heap| && h < |a.table.heap| && a.table.heap[g].key == a.table.heap[h].key
  }

  /** While leaders are on time, a key has at most one subprocess running. */
  lemma NoOverlappingRuns(cfg: Config, states: seq<Agent>, events: seq<Event>, i: nat)
    requires IsTrace(cfg, states, events) && i < |states| && OnTime(cfg, states, events, i)
    ensures NoOverlap(states[i])
  {
    var a := states[i];
    NoLeaseErrorIffOnTime(cfg, states, events, i);
    LedTrace(cfg, states, events, i);
    TraceInv(cfg, states, events, i);
    forall g, h | g in a.running && h in a.running && SameKey(a, g, h)
      ensures g == h
    {
      assert EntryInv(cfg, a.table, a.now, g);
      assert EntryInv(cfg, a.table, a.now, h);
    }
  }

  /** A request for a key whose subprocess still runs although the table has no entry for
      it, or only one that the sweep is about to remove. */
  ghost predicate GrantsBeside(cfg: Config, a: Agent, ev: Event) {
    && ev.Request?
    && (exists g :: g in a.running && g < |a.table.heap| && a.table.heap[g].key == ev.key)
    && (ev.key in a.table.entries && a.table.entries[ev.key] < |a.table.heap| ==>
          var e := a.table.heap[a.table.entries[ev.key]];
          Expired(e, ev.sweepAt) || Overdue(cfg, e, ev.sweepAt))
  }

  /** Two subprocesses of a key start to overlap exactly at such a request. */
  lemma OverlapStartsIff(cfg: Config, a: Agent, ev: Event)
    requires AgentInv(cfg, a) && Enabled(a, ev) && NoOverlap(a)
    ensures NoOverlap(Step(cfg, a, ev)) <==> !GrantsBeside(cfg, a, ev)
  {
    var b, next := Step(cfg, a, ev), |a.table.heap|;
    assert forall g: nat :: g < |a.table.heap| ==> g < |b.table.heap| && b.table.heap[g].key == a.table.heap[g].key by {
      StepFollows(cfg, a, ev);
    }
    if GrantsBeside(cfg, a, ev) {
      var g :| g in a.running && g < |a.table.heap| && a.table.heap[g].key == ev.key;
      assert next in b.running && g in b.running && SameKey(b, g, next);
    } else {
      forall g, h | g in b.running && h in b.running && SameKey(b, g, h)
        ensures g == h
      {
        assert g in a.running && h in a.running ==> SameKey(a, g, h);
      }
    }
  }

  ghost predicate NeverOverlaps(states: seq<Agent>, i: nat)
    requires i < |states|
  {
    forall j :: 0 <= j <= i ==> NoOverlap(states[j])
  }

  ghost predicate NeverGrantsBeside(cfg: Config, states: seq<Agent>, events: seq<Event>, i: nat)
    requires i <= |events| < |states|
  {
    forall k :: 0 <= k < i ==> !GrantsBeside(cfg, states[k], events[k])
  }

  lemma OverlapStep(cfg: Config, states: seq<Agent>, events: seq<Event>, k: nat)
    requires IsTrace(cfg, states, events) && k < |events| && NoOverlap(states[k])
    ensures NoOverlap(states[k + 1]) <==> !GrantsBeside(cfg, states[k], events[k])
  {
    TraceInv(cfg, states, events, k);
    assert Enabled(states[k], events[k]);
    OverlapStartsIff(cfg, states[k], events[k]);
  }

  /** A key never has two subprocesses running exactly when no request ever comes in that
      way. */
  lemma {:induction false} NeverOverlapsIff(cfg: Config, states: seq<Agent>, events: seq<Event>, i: nat)
    requires IsTrace(cfg, states, events) && i < |states|
    ensures NeverOverlaps(states, i) <==> NeverGrantsBeside(cfg, states, events, i)
  {
    if i > 0 {
      NeverOverlapsIff(cfg, states, events, i - 1);
      NeverOneMore(cfg, states, events, i);
      if NoOverlap(states[i - 1]) {
        OverlapStep(cfg, states, events, i - 1);
      }
    }
  }

  lemma NeverOneMore(cfg: Config, states: seq<Agent>, events: seq<Event>, i: nat)
    requires 0 < i <= |events| < |states|
    ensures NeverOverlaps(states, i) <==> NeverOverlaps(states, i - 1) && NoOverlap(states[i])
    ensures NeverOverlaps(states, i - 1) ==> NoOverlap(states[i - 1])
    ensures NeverGrantsBeside(cfg, states, events, i) <==>
            NeverGrantsBeside(cfg, states, events, i - 1) && !GrantsBeside(cfg, states[i - 1], events[i - 1])
  {
  }

  // ---- the premise as the source states it ---------------------------------------------------

  /** Each leader's subprocess comes back within the maximal lease of its grant. */
  ghost predicate Prompt(cfg: Config, states: seq<Agent>, events: seq<Event>) {
    |states| == |events| + 1 &&
    forall k, g :: 0 <= k < |events| && g in states[k].running ==> !IsLate(cfg, states[k], g, At(events[k]))
  }

  /** Prompt leaders: no two subprocesses of one key overlap, every follower receives its
      own leader's answer, and none a lease error. */
  lemma PromptLeaders(cfg: Config, states: seq<Agent>, events: seq<Event>, i: nat)
    requires IsTrace(cfg, states, events) && i < |states| && Prompt(cfg, states, events)
    ensures OwnResults(states[i]) && NoLeaseError(states[i]) && NoOverlap(states[i])
  {
    forall k | 0 <= k < i
      ensures SweepsOnTime(cfg, states[k], events[k])
    {
    }
    NoLeaseErrorIffOnTime(cfg, states, events, i);
    OwnResultsIffOnTime(cfg, states, events, i);
    NoOverlappingRuns(cfg, states, events, i);
  }

  /** What a returning leader does to the table, late or not: it settles its own entry
      exactly when that entry still waits, and it settles another exactly when its own
      entry lost the key to one that waits; a lost key with no successor leaves a new
      entry behind. */
  lemma LeaderSettles(cfg: Config, a: Agent, ev: Event, h: nat)
    requires AgentInv(cfg, a) && ev.Finish? && Enabled(a, ev) && h < |a.table.heap|
    ensures var b, g := Step(cfg, a, ev), ev.leader;
            && (b.table.heap[h] != a.table.heap[h] <==>
                  && !a.table.heap[h].resolved && a.table.heap[h].key == a.table.heap[g].key)
            && (b.table.heap[h] != a.table.heap[h] ==> b.table.heap[h].result == Some(Answered(ev.response)))
            && (|b.table.heap| == |a.table.heap| + 1 <==> a.table.heap[g].key !in a.table.entries)
  {
    assert EntryInv(cfg, a.table, a.now, h);
  }

  /** A sweep that sees a late leader is all it takes: two subprocesses of one key run at
      once and the second leader's followers receive the first leader's answer. */
  lemma LateLeaderAnswersForSuccessor()
    returns (cfg: Config, states: seq<Agent>, events: seq<Event>)
    ensures IsTrace(cfg, states, events) && |states| == 4
    ensures !NoOverlap(states[2])
    ensures var last := states[|states| - 1];
            && 1 in last.running && |last.table.heap| == 2
            && 0 in last.answers && last.table.heap[1].result == Some(Answered(last.answers[0]))
  {
    cfg := Config(10, 5);
    var k := Key("run", "step");
    var s0 := Agent(Table(map[], []), {}, map[], 0);
    var e0, e1, e2 := Request(k, 0, 0), Request(k, 6, 6), Finish(0, "late", 7, 7);
    var s1 := Step(cfg, s0, e0);
    assert s1.table == Table(map[k := 0], [NewEntry(k, 0)]);
    var s2 := Step(cfg, s1, e1);
    assert s2.table == Table(map[k := 1], [Forced(NewEntry(k, 0)), NewEntry(k, 6)]);
    assert s2.running == {0, 1};
    var s3 := Step(cfg, s2, e2);
    states, events := [s0, s1, s2, s3], [e0, e1, e2];
    assert 0 in states[2].running && 1 in states[2].running && SameKey(states[2], 0, 1);
  }

  lemma TraceOneMore(cfg: Config, states: seq<Agent>, events: seq<Event>, ev: Event, next: Agent)
    requires IsTrace(cfg, states, events)
    requires WellFormed(states[|events|].table) && Enabled(states[|events|], ev)
    requires next == Step(cfg, states[|events|], ev)
    ensures IsTrace(cfg, states + [next], events + [ev])
  {
    var states', events' := states + [next], events + [ev];
    assert states'[0] == states[0];
    forall i | 0 <= i < |events'|
      ensures WellFormed(states'[i].table) && Enabled(states'[i], events'[i])
      ensures states'[i + 1] == Step(cfg, states'[i], events'[i])
    {
      assert i < |events| ==> events'[i] == events[i] && states'[i] == states[i] && states'[i + 1] == states[i + 1];
    }
  }

  /** A leader given up by the ticker while its subprocess is still running. */
  lemma TickerGivesUp(cfg: Config, k: Key) returns (states: seq<Agent>, events: seq<Event>)
    requires cfg == Config(10, 5)
    ensures IsTrace(cfg, states, events) && |states| == 3
    ensures states[2] == Agent(Table(map[], [Forced(NewEntry(k, 0))]), {0}, map[], 6)
  {
    var s0, e0, e1 := Agent(Table(map[], []), {}, map[], 0), Request(k, 0, 0), Tick(6);
    var s1 := Step(cfg, s0, e0);
    assert s1.table == Table(map[k := 0], [NewEntry(k, 0)]);
    var s2 := Step(cfg, s1, e1);
    assert s2.table == Table(map[], [Forced(NewEntry(k, 0))]);
    states, events := [s0, s1, s2], [e0, e1];
  }

  /** A leader given up by the ticker that returns before anyone asks again finds no entry
      and leaves one behind, which answers the next caller. */
  lemma LateLeaderLeavesEntry() returns (cfg: Config, states: seq<Agent>, events: seq<Event>)
    ensures IsTrace(cfg, states, events) && |states| == 5
    ensures var k := Key("run", "step");
            && events[2].Finish? && events[2].leader == 0 && k !in states[2].table.entries
            && events[3].Request? && events[3].key == k
            && states[4].running == {} && states[4].table.entries == map[k := 1]
            && |states[4].table.heap| == 2
            && states[4].table.heap[0].result == Some(LeaseError)
            && states[4].table.heap[1].result == Some(Answered(events[2].response))
  {
    cfg := Config(10, 5);
    var k := Key("run", "step");
    var s0, e0 := TickerGivesUp(cfg, k);
    var e2, e3 := Finish(0, "late", 7, 7), Request(k, 8, 8);
    var s3 := Step(cfg, s0[2], e2);
    assert s3.table == Table(map[k := 1], [Forced(NewEntry(k, 0)), Settled(cfg, NewEntry(k, 7), "late", 7)]);
    TraceOneMore(cfg, s0, e0, e2, s3);
    var s4 := Step(cfg, s3, e3);
    assert s4.table == s3.table;
    TraceOneMore(cfg, s0 + [s3], e0 + [e2], e3, s4);
    states, events := s0 + [s3] + [s4], e0 + [e2] + [e3];
  }
}
