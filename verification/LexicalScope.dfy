/**
  Scope checking is exact: the string scope paths of module SemanticValidation accept a
  document exactly when its ids are distinct and every reference is lexically in scope.

  Lexical scope is stated without paths: an environment of visible ids is passed down
  the tree, and entering a branch case or a map body adds the ids of that list.
 */
module LexicalScope {
  import opened WorkflowSpecs
  import opened SemanticValidation

  // ---- the reference definition --------------------------------------------------------

  function DirectIds(nodes: seq<Node>): set<NodeId> {
    set i | 0 <= i < |nodes| :: nodes[i].Id()
  }

  ghost predicate BindingInScope(b: Binding, env: set<NodeId>) {
    forall id :: Mentions(b, id) ==> id in env
  }

  ghost predicate FieldsInScope(fields: seq<Field>, env: set<NodeId>) {
    forall k :: 0 <= k < |fields| ==> BindingInScope(fields[k].binding, env)
  }

  ghost predicate StepInScope(step: Step, env: set<NodeId>) {
    (forall id :: id in step.dependsOn ==> id in env) && FieldsInScope(step.inputs, env)
  }

  /** Every reference at or below these nodes is to an id of an enclosing list; `env` holds
      the ids of the lists around and including this one. */
  ghost predicate NodesInScope(nodes: seq<Node>, env: set<NodeId>)
    decreases nodes
  {
    forall i :: 0 <= i < |nodes| ==> NodeInScope(nodes[i], env)
  }

  ghost predicate NodeInScope(node: Node, env: set<NodeId>)
    decreases node
  {
    match node
    case StepNode(step) => StepInScope(step, env)
    case BranchNode(_, selector, cases) =>
      && BindingInScope(selector, env)
      && forall k :: 0 <= k < |cases| ==>
           var inner := env + DirectIds(cases[k].steps);
           NodesInScope(cases[k].steps, inner) && FieldsInScope(cases[k].results, inner)
    case MapNode(_, source, body, results) =>
      && BindingInScope(source, env)
      && var inner := env + DirectIds(body);
         NodesInScope(body, inner) && FieldsInScope(results, inner)
  }

  /** Every id defined anywhere in these nodes, in document order. */
  function AllIds(nodes: seq<Node>): seq<NodeId>
    decreases nodes
  {
    if nodes == [] then [] else [nodes[0].Id()] + InnerIds(nodes[0]) + AllIds(nodes[1..])
  }

  function InnerIds(node: Node): seq<NodeId>
    decreases node
  {
    match node
    case StepNode(_) => []
    case BranchNode(_, _, cases) => CaseIds(cases)
    case MapNode(_, _, body, _) => AllIds(body)
  }

  function CaseIds(cases: seq<Case>): seq<NodeId>
    decreases cases
  {
    if cases == [] then [] else AllIds(cases[0].steps) + CaseIds(cases[1..])
  }

  ghost predicate WellScoped(spec: Spec) {
    && NoDuplicates(AllIds(spec.steps))
    && var env := DirectIds(spec.steps);
       && NodesInScope(spec.steps, env)
       && FieldsInScope(spec.outputs, env)
       && FieldsInScope(spec.fallbacks, env)
  }

  /** The keys of a JSON object are distinct: the cases of a branch, at every depth. */
  ghost predicate JsonKeys(nodes: seq<Node>)
    decreases nodes
  {
    forall i :: 0 <= i < |nodes| ==> NodeJsonKeys(nodes[i])
  }

  ghost predicate NodeJsonKeys(node: Node)
    decreases node
  {
    match node
    case StepNode(_) => true
    case BranchNode(_, _, cases) =>
      && (forall k, l :: 0 <= k < l < |cases| ==> cases[k].key != cases[l].key)
      && (forall k :: 0 <= k < |cases| ==> JsonKeys(cases[k].steps))
    case MapNode(_, _, body, _) => JsonKeys(body)
  }

  // ---- duplicates ------------------------------------------------------------------------

  function DefIds(defs: seq<Def>): seq<NodeId> {
    seq(|defs|, i requires 0 <= i < |defs| => defs[i].id)
  }

  lemma {:induction false} WalkDefIds(nodes: seq<Node>, scope: ScopePath)
    ensures DefIds(WalkDefs(nodes, scope)) == AllIds(nodes)
    decreases nodes, 1
  {
    if nodes != [] {
      InnerDefIds(nodes[0], scope);
      WalkDefIds(nodes[1..], scope);
    }
  }

  lemma {:induction false} InnerDefIds(node: Node, scope: ScopePath)
    ensures DefIds(InnerDefs(node, scope)) == InnerIds(node)
    decreases node, 2
  {
    match node
    case StepNode(_) =>
    case BranchNode(id, _, cases) => CaseDefIds(id, cases, scope);
    case MapNode(id, _, body, _) => WalkDefIds(body, BodyScope(scope, id));
  }

  lemma {:induction false} CaseDefIds(branchId: NodeId, cases: seq<Case>, scope: ScopePath)
    ensures DefIds(CaseDefs(branchId, cases, scope)) == CaseIds(cases)
    decreases cases, 1
  {
    if cases != [] {
      WalkDefIds(cases[0].steps, CaseScope(scope, branchId, cases[0].key));
      CaseDefIds(branchId, cases[1..], scope);
    }
  }

  lemma NoDuplicatesSnoc(s: seq<NodeId>, x: NodeId)
    ensures NoDuplicates(s + [x]) <==> NoDuplicates(s) && x !in s
  {
    var t := s + [x];
    if NoDuplicates(t) {
      forall i, j | 0 <= i < j < |s|
        ensures s[i] != s[j]
      {
        assert t[i] != t[j];
      }
      forall i | 0 <= i < |s|
        ensures s[i] != x
      {
        assert t[i] != t[|s|];
      }
    }
  }

  ghost predicate Records(c: Collected, defs: seq<Def>) {
    && (c.duplicateIds == [] <==> NoDuplicates(DefIds(defs)))
    && (forall d :: d in defs ==> d.id in c.idToScope)
    && (forall id :: id in c.idToScope ==> Def(id, c.idToScope[id]) in defs)
  }

  lemma RecordsOne(c: Collected, defs: seq<Def>, d: Def)
    requires Records(c, defs)
    ensures Records(RecordId(c, d), defs + [d])
  {
    assert DefIds(defs + [d]) == DefIds(defs) + [d.id];
    NoDuplicatesSnoc(DefIds(defs), d.id);
    if d.id in DefIds(defs) {
      var i :| 0 <= i < |defs| && DefIds(defs)[i] == d.id;
      assert defs[i] in defs;
    }
    if d.id in c.idToScope {
      var i :| 0 <= i < |defs| && defs[i] == Def(d.id, c.idToScope[d.id]);
      assert DefIds(defs)[i] == d.id;
    }
  }

  /** What recordId keeps of a sequence of definitions. */
  lemma {:induction false} RecordedDefs(defs: seq<Def>)
    ensures Records(RecordAll(Collected(map[], []), defs), defs)
  {
    if defs != [] {
      var init, last := defs[..|defs| - 1], defs[|defs| - 1];
      assert defs == init + [last];
      RecordedDefs(init);
      RecordAllConcat(Collected(map[], []), init, [last]);
      RecordsOne(RecordAll(Collected(map[], []), init), init, last);
    }
  }

  // ---- scope paths are injective over the tree --------------------------------------------

  lemma {:induction false} WalkDefsMembers(nodes: seq<Node>, scope: ScopePath, d: Def)
    ensures d in WalkDefs(nodes, scope) <==>
            exists i :: 0 <= i < |nodes| && (d == Def(nodes[i].Id(), scope) || d in InnerDefs(nodes[i], scope))
  {
    if nodes != [] {
      WalkDefsMembers(nodes[1..], scope, d);
      if d in WalkDefs(nodes[1..], scope) {
        var i :| 0 <= i < |nodes[1..]| && (d == Def(nodes[1..][i].Id(), scope) || d in InnerDefs(nodes[1..][i], scope));
        assert nodes[i + 1] == nodes[1..][i];
      }
      if i :| 0 < i < |nodes| && (d == Def(nodes[i].Id(), scope) || d in InnerDefs(nodes[i], scope)) {
        assert nodes[i] == nodes[1..][i - 1];
      }
    }
  }

  lemma {:induction false} CaseDefsMembers(branchId: NodeId, cases: seq<Case>, scope: ScopePath, d: Def)
    ensures d in CaseDefs(branchId, cases, scope) <==>
            exists k :: 0 <= k < |cases| && d in WalkDefs(cases[k].steps, CaseScope(scope, branchId, cases[k].key))
  {
    if cases != [] {
      CaseDefsMembers(branchId, cases[1..], scope, d);
      if d in CaseDefs(branchId, cases[1..], scope) {
        var k :| 0 <= k < |cases[1..]| &&
                 d in WalkDefs(cases[1..][k].steps, CaseScope(scope, branchId, cases[1..][k].key));
        assert cases[k + 1] == cases[1..][k];
      }
      if k :| 0 < k < |cases| && d in WalkDefs(cases[k].steps, CaseScope(scope, branchId, cases[k].key)) {
        assert cases[k] == cases[1..][k - 1];
      }
    }
  }

  /** The path segment a node adds for what is inside it. */
  function Tag(node: Node): string {
    match node
    case StepNode(_) => ""
    case BranchNode(id, _, _) => "branch:" + id
    case MapNode(id, _, _, _) => "map:" + id
  }

  lemma TagIsInjective(a: Node, b: Node)
    requires !a.StepNode? && !b.StepNode? && Tag(a) == Tag(b)
    ensures a.Id() == b.Id() && (a.BranchNode? <==> b.BranchNode?)
  {
    assert Tag(a)[0] == if a.BranchNode? then 'b' else 'm';
    assert Tag(b)[0] == if b.BranchNode? then 'b' else 'm';
    var skip := if a.BranchNode? then 7 else 4;
    assert a.Id() == Tag(a)[skip..] && b.Id() == Tag(b)[skip..];
  }

  lemma CaseTagIsInjective(a: string, b: string)
    requires "case:" + a == "case:" + b
    ensures a == b
  {
    assert a == ("case:" + a)[5..] && b == ("case:" + b)[5..];
  }

  lemma {:induction false} DefsExtendScope(nodes: seq<Node>, scope: ScopePath, d: Def)
    requires d in WalkDefs(nodes, scope)
    ensures scope <= d.scope
    decreases nodes, 1
  {
    WalkDefsMembers(nodes, scope, d);
    var i :| 0 <= i < |nodes| && (d == Def(nodes[i].Id(), scope) || d in InnerDefs(nodes[i], scope));
    if d in InnerDefs(nodes[i], scope) {
      InnerDefsExtendTag(nodes[i], scope, d);
    }
  }

  lemma {:induction false} InnerDefsExtendTag(node: Node, scope: ScopePath, d: Def)
    requires d in InnerDefs(node, scope)
    ensures !node.StepNode? && scope + [Tag(node)] <= d.scope
    ensures node.BranchNode? ==> scope + [Tag(node)] < d.scope
    decreases node, 2
  {
    match node
    case BranchNode(id, _, cases) =>
      CaseDefsMembers(id, cases, scope, d);
      var k :| 0 <= k < |cases| && d in WalkDefs(cases[k].steps, CaseScope(scope, id, cases[k].key));
      DefsExtendScope(cases[k].steps, CaseScope(scope, id, cases[k].key), d);
      assert scope + [Tag(node)] < CaseScope(scope, id, cases[k].key);
    case MapNode(id, _, body, _) =>
      DefsExtendScope(body, BodyScope(scope, id), d);
  }

  /** `nodes` is the only list of the document walked at or below `scope`. */
  ghost predicate Covers(all: seq<Def>, nodes: seq<Node>, scope: ScopePath) {
    && (forall d :: d in all && scope <= d.scope ==> d in WalkDefs(nodes, scope))
    && (forall d :: d in WalkDefs(nodes, scope) ==> d in all)
  }

  ghost predicate DistinctSiblings(nodes: seq<Node>) {
    forall i, j :: 0 <= i < j < |nodes| ==> nodes[i].Id() != nodes[j].Id()
  }

  /** A definition below the segment of node `i` is inside node `i`. */
  lemma BelowTagIsInside(all: seq<Def>, nodes: seq<Node>, scope: ScopePath, i: nat, d: Def)
    requires Covers(all, nodes, scope) && DistinctSiblings(nodes) && i < |nodes| && !nodes[i].StepNode?
    requires d in all && scope + [Tag(nodes[i])] <= d.scope
    ensures d in InnerDefs(nodes[i], scope)
  {
    assert scope <= scope + [Tag(nodes[i])];
    WalkDefsMembers(nodes, scope, d);
    var j :| 0 <= j < |nodes| && (d == Def(nodes[j].Id(), scope) || d in InnerDefs(nodes[j], scope));
    InnerDefsExtendTag(nodes[j], scope, d);
    assert d.scope[|scope|] == Tag(nodes[j]) == Tag(nodes[i]);
    TagIsInjective(nodes[i], nodes[j]);
  }

  lemma InnerIsCovered(all: seq<Def>, nodes: seq<Node>, scope: ScopePath, i: nat, d: Def)
    requires Covers(all, nodes, scope) && i < |nodes| && d in InnerDefs(nodes[i], scope)
    ensures d in all
  {
    WalkDefsMembers(nodes, scope, d);
  }

  lemma CaseIsCovered(all: seq<Def>, nodes: seq<Node>, scope: ScopePath, i: nat, k: nat)
    requires Covers(all, nodes, scope) && DistinctSiblings(nodes)
    requires i < |nodes| && nodes[i].BranchNode? && k < |nodes[i].cases| && NodeJsonKeys(nodes[i])
    ensures Covers(all, nodes[i].cases[k].steps, CaseScope(scope, nodes[i].branchId, nodes[i].cases[k].key))
  {
    var id, cases := nodes[i].branchId, nodes[i].cases;
    var inner := CaseScope(scope, id, cases[k].key);
    assert scope + [Tag(nodes[i])] <= inner;
    forall d | d in all && inner <= d.scope
      ensures d in WalkDefs(cases[k].steps, inner)
    {
      BelowTagIsInside(all, nodes, scope, i, d);
      CaseDefsMembers(id, cases, scope, d);
      var l :| 0 <= l < |cases| && d in WalkDefs(cases[l].steps, CaseScope(scope, id, cases[l].key));
      DefsExtendScope(cases[l].steps, CaseScope(scope, id, cases[l].key), d);
      assert d.scope[|scope| + 1] == "case:" + cases[l].key == "case:" + cases[k].key;
      CaseTagIsInjective(cases[k].key, cases[l].key);
    }
    forall d | d in WalkDefs(cases[k].steps, inner)
      ensures d in all
    {
      CaseDefsMembers(id, cases, scope, d);
      InnerIsCovered(all, nodes, scope, i, d);
    }
  }

  lemma BodyIsCovered(all: seq<Def>, nodes: seq<Node>, scope: ScopePath, i: nat)
    requires Covers(all, nodes, scope) && DistinctSiblings(nodes)
    requires i < |nodes| && nodes[i].MapNode?
    ensures Covers(all, nodes[i].body, BodyScope(scope, nodes[i].mapId))
  {
    var inner := BodyScope(scope, nodes[i].mapId);
    forall d | d in all && inner <= d.scope
      ensures d in WalkDefs(nodes[i].body, inner)
    {
      BelowTagIsInside(all, nodes, scope, i, d);
    }
    forall d | d in WalkDefs(nodes[i].body, inner)
      ensures d in all
    {
      InnerIsCovered(all, nodes, scope, i, d);
    }
  }

  // ---- paths agree with lexical scope --------------------------------------------------------

  ghost predicate Visible(all: seq<Def>, id: NodeId, scope: ScopePath) {
    exists d :: d in all && d.id == id && d.scope <= scope
  }

  /** The path `scope` stands for the environment `env`. */
  ghost predicate StandsFor(all: seq<Def>, scope: ScopePath, env: set<NodeId>) {
    forall id :: id in env <==> Visible(all, id, scope)
  }

  /** Entering a list adds its own ids to what is visible. */
  lemma EnterScope(all: seq<Def>, nodes: seq<Node>, outer: ScopePath, scope: ScopePath, env: set<NodeId>)
    requires Covers(all, nodes, scope) && outer <= scope && StandsFor(all, outer, env)
    requires forall d :: d in all && d.scope < scope ==> d.scope <= outer
    ensures StandsFor(all, scope, env + DirectIds(nodes))
  {
    forall id | Visible(all, id, scope)
      ensures id in env + DirectIds(nodes)
    {
      var d :| d in all && d.id == id && d.scope <= scope;
      if d.scope == scope {
        WalkDefsMembers(nodes, scope, d);
        var i :| 0 <= i < |nodes| && (d == Def(nodes[i].Id(), scope) || d in InnerDefs(nodes[i], scope));
        if d in InnerDefs(nodes[i], scope) {
          InnerDefsExtendTag(nodes[i], scope, d);
        }
      } else {
        assert Visible(all, id, outer);
      }
    }
    forall id | id in env + DirectIds(nodes)
      ensures Visible(all, id, scope)
    {
      if id in DirectIds(nodes) {
        WalkDefsMembers(nodes, scope, Def(id, scope));
      } else {
        assert Visible(all, id, outer);
      }
    }
  }

  lemma EnterCase(all: seq<Def>, nodes: seq<Node>, scope: ScopePath, env: set<NodeId>, i: nat, k: nat)
    requires Covers(all, nodes, scope) && DistinctSiblings(nodes) && StandsFor(all, scope, env)
    requires i < |nodes| && nodes[i].BranchNode? && k < |nodes[i].cases| && NodeJsonKeys(nodes[i])
    ensures var inner := CaseScope(scope, nodes[i].branchId, nodes[i].cases[k].key);
            && Covers(all, nodes[i].cases[k].steps, inner)
            && StandsFor(all, inner, env + DirectIds(nodes[i].cases[k].steps))
  {
    var inner := CaseScope(scope, nodes[i].branchId, nodes[i].cases[k].key);
    CaseIsCovered(all, nodes, scope, i, k);
    forall d | d in all && d.scope < inner
      ensures d.scope <= scope
    {
      if |d.scope| > |scope| {
        assert d.scope == scope + [Tag(nodes[i])];
        BelowTagIsInside(all, nodes, scope, i, d);
        InnerDefsExtendTag(nodes[i], scope, d);
      }
    }
    EnterScope(all, nodes[i].cases[k].steps, scope, inner, env);
  }

  lemma EnterBody(all: seq<Def>, nodes: seq<Node>, scope: ScopePath, env: set<NodeId>, i: nat)
    requires Covers(all, nodes, scope) && DistinctSiblings(nodes) && StandsFor(all, scope, env)
    requires i < |nodes| && nodes[i].MapNode?
    ensures var inner := BodyScope(scope, nodes[i].mapId);
            && Covers(all, nodes[i].body, inner)
            && StandsFor(all, inner, env + DirectIds(nodes[i].body))
  {
    BodyIsCovered(all, nodes, scope, i);
    EnterScope(all, nodes[i].body, scope, BodyScope(scope, nodes[i].mapId), env);
  }

  // ---- distinct ids, list by list -------------------------------------------------------------

  /** The ids of one list are distinct, and so are those of every list inside it. */
  ghost predicate Distinct(nodes: seq<Node>)
    decreases nodes
  {
    DistinctSiblings(nodes) && forall i :: 0 <= i < |nodes| ==> DistinctInside(nodes[i])
  }

  ghost predicate DistinctInside(node: Node)
    decreases node
  {
    match node
    case StepNode(_) => true
    case BranchNode(_, _, cases) => forall k :: 0 <= k < |cases| ==> Distinct(cases[k].steps)
    case MapNode(_, _, body, _) => Distinct(body)
  }

  lemma NoDuplicatesSplit(a: seq<NodeId>, b: seq<NodeId>)
    requires NoDuplicates(a + b)
    ensures NoDuplicates(a) && NoDuplicates(b)
    ensures forall x :: x in a ==> x !in b
  {
    var c := a + b;
    assert forall i :: 0 <= i < |a| ==> c[i] == a[i];
    assert forall i :: 0 <= i < |b| ==> c[|a| + i] == b[i];
  }

  lemma {:induction false} DirectIdsAreIds(nodes: seq<Node>, i: nat)
    requires i < |nodes|
    ensures nodes[i].Id() in AllIds(nodes)
  {
    if i > 0 {
      DirectIdsAreIds(nodes[1..], i - 1);
    }
  }

  lemma {:induction false} UniqueIdsAreDistinct(nodes: seq<Node>)
    requires NoDuplicates(AllIds(nodes))
    ensures Distinct(nodes)
    decreases nodes, 1
  {
    if nodes != [] {
      var first, rest := nodes[0], nodes[1..];
      NoDuplicatesSplit([first.Id()] + InnerIds(first), AllIds(rest));
      NoDuplicatesSplit([first.Id()], InnerIds(first));
      UniqueInnerIdsAreDistinct(first);
      UniqueIdsAreDistinct(rest);
      forall i, j | 0 <= i < j < |nodes|
        ensures nodes[i].Id() != nodes[j].Id()
      {
        assert nodes[j] == rest[j - 1];
        DirectIdsAreIds(rest, j - 1);
        if i == 0 {
          assert first.Id() in [first.Id()] + InnerIds(first);
        } else {
          assert nodes[i] == rest[i - 1];
        }
      }
      forall i | 0 <= i < |nodes|
        ensures DistinctInside(nodes[i])
      {
        if i > 0 {
          assert nodes[i] == rest[i - 1];
        }
      }
    }
  }

  lemma {:induction false} UniqueInnerIdsAreDistinct(node: Node)
    requires NoDuplicates(InnerIds(node))
    ensures DistinctInside(node)
    decreases node, 2
  {
    match node
    case StepNode(_) =>
    case BranchNode(_, _, cases) => UniqueCaseIdsAreDistinct(cases);
    case MapNode(_, _, body, _) => UniqueIdsAreDistinct(body);
  }

  lemma {:induction false} UniqueCaseIdsAreDistinct(cases: seq<Case>)
    requires NoDuplicates(CaseIds(cases))
    ensures forall k :: 0 <= k < |cases| ==> Distinct(cases[k].steps)
    decreases cases, 1
  {
    if cases != [] {
      NoDuplicatesSplit(AllIds(cases[0].steps), CaseIds(cases[1..]));
      UniqueIdsAreDistinct(cases[0].steps);
      UniqueCaseIdsAreDistinct(cases[1..]);
      forall k | 0 <= k < |cases|
        ensures Distinct(cases[k].steps)
      {
        if k > 0 {
          assert cases[k] == cases[1..][k - 1];
        }
      }
    }
  }

  // ---- references ---------------------------------------------------------------------------

  ghost predicate AllResolve(all: seq<Def>, refs: seq<Ref>) {
    forall r :: r in refs ==> Visible(all, r.targetId, r.siteScope)
  }

  lemma ConcatResolves(all: seq<Def>, a: seq<Ref>, b: seq<Ref>)
    ensures AllResolve(all, a + b) <==> AllResolve(all, a) && AllResolve(all, b)
  {
    assert forall r :: r in a ==> r in a + b;
    assert forall r :: r in b ==> r in a + b;
  }

  ghost predicate InScope(targets: seq<NodeId>, env: set<NodeId>) {
    forall id :: id in targets ==> id in env
  }

  lemma BindingScope(b: Binding, env: set<NodeId>)
    ensures InScope(CollectStepBindingIds(b), env) <==> BindingInScope(b, env)
  {
    forall id
      ensures id in CollectStepBindingIds(b) <==> Mentions(b, id)
    {
      BindingIdsAreMentions(b, id);
    }
  }

  lemma FieldsScope(fields: seq<Field>, env: set<NodeId>)
    ensures InScope(CollectFieldIds(fields), env) <==> FieldsInScope(fields, env)
  {
    forall id
      ensures id in CollectFieldIds(fields) <==> FieldsMention(fields, id)
    {
      FieldIdsAreMentions(fields, id);
    }
    forall k, id | 0 <= k < |fields| && Mentions(fields[k].binding, id)
      ensures FieldsMention(fields, id)
    {
    }
  }

  lemma StepScope(step: Step, env: set<NodeId>)
    ensures InScope(CollectStepReferenceIds(step), env) <==> StepInScope(step, env)
  {
    FieldsScope(step.inputs, env);
  }

  lemma RefsResolve(all: seq<Def>, siteId: NodeId, scope: ScopePath, targets: seq<NodeId>, env: set<NodeId>)
    requires StandsFor(all, scope, env)
    ensures AllResolve(all, Refs(siteId, scope, targets)) <==> InScope(targets, env)
  {
    var refs := Refs(siteId, scope, targets);
    assert forall i :: 0 <= i < |targets| ==> refs[i].targetId == targets[i] && refs[i] in refs;
  }

  /** A list's references resolve by path exactly when they are lexically in scope: the
      list is given with all its siblings, and walked from `from`. */
  lemma {:induction false} WalkResolves(all: seq<Def>, nodes: seq<Node>, scope: ScopePath, env: set<NodeId>, from: nat)
    requires Covers(all, nodes, scope) && StandsFor(all, scope, env)
    requires Distinct(nodes) && JsonKeys(nodes) && from <= |nodes|
    ensures AllResolve(all, WalkRefs(nodes[from..], scope)) <==> NodesInScope(nodes[from..], env)
    decreases nodes, |nodes| - from, 0
  {
    if from < |nodes| {
      var here, below := nodes[from..], nodes[from + 1..];
      assert here[0] == nodes[from] && here[1..] == below;
      ConcatResolves(all, NodeRefs(here[0], scope), WalkRefs(below, scope));
      WalkResolves(all, nodes, scope, env, from + 1);
      NodeResolves(all, nodes, scope, env, from);
      assert NodesInScope(here, env) <==> NodeInScope(here[0], env) && NodesInScope(below, env) by {
        assert forall i :: 0 < i < |here| ==> here[i] == below[i - 1];
        assert forall i :: 0 <= i < |below| ==> below[i] == here[i + 1];
      }
    }
  }

  lemma {:induction false} NodeResolves(all: seq<Def>, nodes: seq<Node>, scope: ScopePath, env: set<NodeId>, i: nat)
    requires Covers(all, nodes, scope) && StandsFor(all, scope, env)
    requires Distinct(nodes) && JsonKeys(nodes) && i < |nodes|
    ensures AllResolve(all, NodeRefs(nodes[i], scope)) <==> NodeInScope(nodes[i], env)
    decreases nodes, 0, |nodes| - i
  {
    assert NodeJsonKeys(nodes[i]) && DistinctInside(nodes[i]);
    match nodes[i]
    case StepNode(step) =>
      RefsResolve(all, step.id, scope, CollectStepReferenceIds(step), env);
      StepScope(step, env);
    case BranchNode(id, selector, cases) =>
      RefsResolve(all, id, scope, CollectStepBindingIds(selector), env);
      BindingScope(selector, env);
      ConcatResolves(all, Refs(id, scope, CollectStepBindingIds(selector)), CaseRefs(id, cases, scope));
      forall k | 0 <= k < |cases|
        ensures AllResolve(all, OneCaseRefs(id, cases[k], scope)) <==> CaseInScope(cases[k], env)
      {
        EnterCase(all, nodes, scope, env, i, k);
        var inner := CaseScope(scope, id, cases[k].key);
        ListResolves(all, id, cases[k].steps, cases[k].results, inner, env + DirectIds(cases[k].steps));
      }
      CasesResolve(all, id, cases, scope, env);
    case MapNode(id, source, body, results) =>
      var inner := BodyScope(scope, id);
      EnterBody(all, nodes, scope, env, i);
      RefsResolve(all, id, scope, CollectStepBindingIds(source), env);
      BindingScope(source, env);
      ListResolves(all, id, body, results, inner, env + DirectIds(body));
      var a, b := Refs(id, scope, CollectStepBindingIds(source)), WalkRefs(body, inner);
      var c := Refs(id, inner, CollectFieldIds(results));
      Associative(a, b, c);
      ConcatResolves(all, a, b + c);
  }

  function OneCaseRefs(branchId: NodeId, c: Case, scope: ScopePath): seq<Ref> {
    var inner := CaseScope(scope, branchId, c.key);
    WalkRefs(c.steps, inner) + Refs(branchId, inner, CollectFieldIds(c.results))
  }

  ghost predicate CaseInScope(c: Case, env: set<NodeId>) {
    var inner := env + DirectIds(c.steps);
    NodesInScope(c.steps, inner) && FieldsInScope(c.results, inner)
  }

  lemma {:induction false} CasesResolve(
    all: seq<Def>, branchId: NodeId, cases: seq<Case>, scope: ScopePath, env: set<NodeId>)
    requires forall k :: 0 <= k < |cases| ==>
               (AllResolve(all, OneCaseRefs(branchId, cases[k], scope)) <==> CaseInScope(cases[k], env))
    ensures AllResolve(all, CaseRefs(branchId, cases, scope)) <==>
            forall k :: 0 <= k < |cases| ==> CaseInScope(cases[k], env)
    decreases |cases|
  {
    if cases != [] {
      var rest := cases[1..];
      assert forall k :: 0 <= k < |rest| ==> rest[k] == cases[k + 1];
      CasesResolve(all, branchId, rest, scope, env);
      ConcatResolves(all, OneCaseRefs(branchId, cases[0], scope), CaseRefs(branchId, rest, scope));
      assert forall k :: 0 < k < |cases| ==> cases[k] == rest[k - 1];
    }
  }

  /** The steps and the results of a case or a map body. */
  lemma {:induction false} ListResolves(
    all: seq<Def>, siteId: NodeId, nodes: seq<Node>, results: seq<Field>, scope: ScopePath, env: set<NodeId>)
    requires Covers(all, nodes, scope) && StandsFor(all, scope, env)
    requires Distinct(nodes) && JsonKeys(nodes)
    ensures AllResolve(all, WalkRefs(nodes, scope) + Refs(siteId, scope, CollectFieldIds(results))) <==>
            NodesInScope(nodes, env) && FieldsInScope(results, env)
    decreases nodes, |nodes| + 1
  {
    ConcatResolves(all, WalkRefs(nodes, scope), Refs(siteId, scope, CollectFieldIds(results)));
    RefsResolve(all, siteId, scope, CollectFieldIds(results), env);
    FieldsScope(results, env);
    assert nodes[0..] == nodes;
    WalkResolves(all, nodes, scope, env, 0);
  }

  lemma {:induction false} FallbacksResolve(all: seq<Def>, fallbacks: seq<Field>, env: set<NodeId>)
    requires StandsFor(all, [], env)
    ensures AllResolve(all, FallbackRefs(fallbacks)) <==> FieldsInScope(fallbacks, env)
  {
    if fallbacks != [] {
      var first := Refs(fallbacks[0].key, [], CollectStepBindingIds(fallbacks[0].binding));
      FallbacksResolve(all, fallbacks[1..], env);
      ConcatResolves(all, first, FallbackRefs(fallbacks[1..]));
      RefsResolve(all, fallbacks[0].key, [], CollectStepBindingIds(fallbacks[0].binding), env);
      BindingScope(fallbacks[0].binding, env);
      assert forall k :: 0 < k < |fallbacks| ==> fallbacks[k] == fallbacks[1..][k - 1];
      assert forall k :: 0 <= k < |fallbacks[1..]| ==> fallbacks[1..][k] == fallbacks[k + 1];
    }
  }

  lemma RootStandsFor(nodes: seq<Node>)
    ensures StandsFor(WalkDefs(nodes, []), [], DirectIds(nodes))
  {
    var all := WalkDefs(nodes, []);
    forall id
      ensures id in DirectIds(nodes) <==> Visible(all, id, [])
    {
      WalkDefsMembers(nodes, [], Def(id, []));
      if Visible(all, id, []) {
        assert Def(id, []) in all;
        var i :| 0 <= i < |nodes| && (Def(id, []) == Def(nodes[i].Id(), []) || Def(id, []) in InnerDefs(nodes[i], []));
        if Def(id, []) in InnerDefs(nodes[i], []) {
          InnerDefsExtendTag(nodes[i], [], Def(id, []));
        }
      }
    }
  }

  lemma DocumentResolves(spec: Spec)
    requires NoDuplicates(AllIds(spec.steps)) && JsonKeys(spec.steps)
    ensures AllResolve(WalkDefs(spec.steps, []), DocumentRefs(spec)) <==> WellScoped(spec)
  {
    var all, env := WalkDefs(spec.steps, []), DirectIds(spec.steps);
    UniqueIdsAreDistinct(spec.steps);
    RootStandsFor(spec.steps);
    ListResolves(all, "", spec.steps, spec.outputs, [], env);
    FallbacksResolve(all, spec.fallbacks, env);
    ConcatResolves(all, WalkRefs(spec.steps, []) + Refs("", [], CollectFieldIds(spec.outputs)),
                   FallbackRefs(spec.fallbacks));
  }

  // ---- the theorem --------------------------------------------------------------------------

  lemma {:induction false} NoRefErrors(idToScope: map<NodeId, ScopePath>, refs: seq<Ref>)
    ensures RefErrors(idToScope, refs) == [] <==>
            forall r :: r in refs ==> r.targetId in idToScope && idToScope[r.targetId] <= r.siteScope
  {
    if refs != [] {
      var init, last := refs[..|refs| - 1], refs[|refs| - 1];
      assert refs == init + [last];
      NoRefErrors(idToScope, init);
    }
  }

  /** With distinct ids, the one scope kept for an id is the scope of its definition. */
  lemma KeptScope(defs: seq<Def>, id: NodeId, site: ScopePath)
    requires NoDuplicates(DefIds(defs))
    ensures var idToScope := RecordAll(Collected(map[], []), defs).idToScope;
            id in idToScope && idToScope[id] <= site <==> Visible(defs, id, site)
  {
    RecordedDefs(defs);
    var idToScope := RecordAll(Collected(map[], []), defs).idToScope;
    if Visible(defs, id, site) {
      var d :| d in defs && d.id == id && d.scope <= site;
      var i :| 0 <= i < |defs| && defs[i] == d;
      var j :| 0 <= j < |defs| && defs[j] == Def(id, idToScope[id]);
      assert DefIds(defs)[i] == DefIds(defs)[j];
    }
  }

  /** validateStepReferences reports nothing exactly when the ids of the document are all
      distinct and every reference targets a node of a list that lexically encloses it. */
  lemma ScopeCheckIsExact(spec: Spec)
    requires JsonKeys(spec.steps)
    ensures Errors(spec) == [] <==> WellScoped(spec)
  {
    var defs := WalkDefs(spec.steps, []);
    var c := RecordAll(Collected(map[], []), defs);
    RecordedDefs(defs);
    WalkDefIds(spec.steps, []);
    assert DuplicateErrors(c.duplicateIds) == [] <==> c.duplicateIds == [];
    if c.duplicateIds == [] {
      DocumentResolves(spec);
      NoRefErrors(c.idToScope, DocumentRefs(spec));
      forall r | r in DocumentRefs(spec)
        ensures r.targetId in c.idToScope && c.idToScope[r.targetId] <= r.siteScope <==>
                Visible(defs, r.targetId, r.siteScope)
      {
        KeptScope(defs, r.targetId, r.siteScope);
      }
    }
  }
}
