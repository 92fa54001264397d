/**
  What the scope check reports (src/dsl-compiler/semantic-validation.ts), in terms of the
  document itself: which ids it calls duplicates, and which references unresolved.
 */
module ScopeErrors {
  import opened WorkflowSpecs
  import opened SemanticValidation
  import opened LexicalScope

  // ---- duplicates ------------------------------------------------------------------------

  ghost predicate AppearsTwice(ids: seq<NodeId>, id: NodeId) {
    exists i, j :: 0 <= i < j < |ids| && ids[i] == id && ids[j] == id
  }

  lemma AppearsTwiceSnoc(ids: seq<NodeId>, last: NodeId, id: NodeId)
    ensures AppearsTwice(ids + [last], id) <==> AppearsTwice(ids, id) || (last == id && id in ids)
  {
    var all := ids + [last];
    assert all[|ids|] == last && forall i :: 0 <= i < |ids| ==> all[i] == ids[i];
    if i, j :| 0 <= i < j < |ids| && ids[i] == id && ids[j] == id {
      assert all[i] == id && all[j] == id;
    }
    if last == id && id in ids {
      var i :| 0 <= i < |ids| && ids[i] == id;
      assert all[i] == id && all[|ids|] == id;
    }
  }

  /** The ids seen have a scope, and those seen again are the duplicates, each once. */
  ghost predicate DuplicatesFound(c: Collected, ids: seq<NodeId>) {
    && (forall id :: id in c.idToScope <==> id in ids)
    && (forall id :: id in c.duplicateIds <==> AppearsTwice(ids, id))
    && NoDuplicates(c.duplicateIds)
  }

  lemma DuplicatesOneMore(c: Collected, ids: seq<NodeId>, d: Def)
    requires DuplicatesFound(c, ids)
    ensures DuplicatesFound(RecordId(c, d), ids + [d.id])
  {
    forall id
      ensures AppearsTwice(ids + [d.id], id) <==> AppearsTwice(ids, id) || (d.id == id && id in ids)
    {
      AppearsTwiceSnoc(ids, d.id, id);
    }
    NoDuplicatesSnoc(c.duplicateIds, d.id);
  }

  lemma {:induction false} RecordedDuplicates(defs: seq<Def>)
    ensures DuplicatesFound(RecordAll(Collected(map[], []), defs), DefIds(defs))
  {
    if defs != [] {
      var init, last := defs[..|defs| - 1], defs[|defs| - 1];
      assert defs == init + [last] && DefIds(defs) == DefIds(init) + [last.id];
      RecordedDuplicates(init);
      RecordAllConcat(Collected(map[], []), init, [last]);
      DuplicatesOneMore(RecordAll(Collected(map[], []), init), DefIds(init), last);
    }
  }

  /** The scope kept for an id is that of its first definition. */
  ghost predicate KeepsFirst(c: Collected, defs: seq<Def>) {
    forall i :: 0 <= i < |defs| ==>
      && defs[i].id in c.idToScope
      && ((forall j :: 0 <= j < i ==> defs[j].id != defs[i].id) ==> c.idToScope[defs[i].id] == defs[i].scope)
  }

  lemma KeepsFirstOneMore(c: Collected, defs: seq<Def>, d: Def)
    requires KeepsFirst(c, defs) && forall id :: id in c.idToScope ==> id in DefIds(defs)
    ensures KeepsFirst(RecordId(c, d), defs + [d])
  {
    var all, c' := defs + [d], RecordId(c, d);
    forall i | 0 <= i < |all|
      ensures all[i].id in c'.idToScope
      ensures (forall j :: 0 <= j < i ==> all[j].id != all[i].id) ==> c'.idToScope[all[i].id] == all[i].scope
    {
      if i < |defs| {
        assert forall j :: 0 <= j <= i ==> all[j] == defs[j];
      } else if d.id in c.idToScope {
        var j :| 0 <= j < |defs| && DefIds(defs)[j] == d.id;
        assert all[j].id == d.id;
      }
    }
  }

  lemma {:induction false} FirstScopeIsKept(defs: seq<Def>)
    ensures KeepsFirst(RecordAll(Collected(map[], []), defs), defs)
  {
    if defs != [] {
      var init, last := defs[..|defs| - 1], defs[|defs| - 1];
      assert defs == init + [last];
      FirstScopeIsKept(init);
      RecordedDuplicates(init);
      RecordAllConcat(Collected(map[], []), init, [last]);
      KeepsFirstOneMore(RecordAll(Collected(map[], []), init), init, last);
    }
  }

  // ---- references --------------------------------------------------------------------------

  /** A node of these, at any depth, whose id is `site`, references `target`. */
  ghost predicate NodesCite(nodes: seq<Node>, site: NodeId, target: NodeId)
    decreases nodes
  {
    exists i :: 0 <= i < |nodes| && NodeCites(nodes[i], site, target)
  }

  ghost predicate NodeCites(node: Node, site: NodeId, target: NodeId)
    decreases node
  {
    match node
    case StepNode(step) => site == step.id && WaitsFor(step, target)
    case BranchNode(id, selector, cases) =>
      || (site == id && Mentions(selector, target))
      || exists k :: 0 <= k < |cases| &&
                     (|| NodesCite(cases[k].steps, site, target)
                      || (site == id && FieldsMention(cases[k].results, target)))
    case MapNode(id, source, body, results) =>
      || (site == id && (Mentions(source, target) || FieldsMention(results, target)))
      || NodesCite(body, site, target)
  }

  /** The outputs cite under the empty id, a session fallback under its key. */
  ghost predicate DocumentCites(spec: Spec, site: NodeId, target: NodeId) {
    || NodesCite(spec.steps, site, target)
    || (site == "" && FieldsMention(spec.outputs, target))
    || FallbackCites(spec.fallbacks, site, target)
  }

  ghost predicate FallbackCites(fallbacks: seq<Field>, site: NodeId, target: NodeId) {
    exists k :: 0 <= k < |fallbacks| && site == fallbacks[k].key && Mentions(fallbacks[k].binding, target)
  }

  /** One of the references is from that site to that target. */
  ghost predicate HasRef(refs: seq<Ref>, site: NodeId, target: NodeId) {
    exists r :: r in refs && r.siteId == site && r.targetId == target
  }

  lemma HasRefConcat(a: seq<Ref>, b: seq<Ref>, site: NodeId, target: NodeId)
    ensures HasRef(a + b, site, target) <==> HasRef(a, site, target) || HasRef(b, site, target)
  {
    assert forall r :: r in a + b <==> r in a || r in b;
  }

  lemma HasRefOfTargets(siteId: NodeId, scope: ScopePath, targets: seq<NodeId>, site: NodeId, target: NodeId)
    ensures HasRef(Refs(siteId, scope, targets), site, target) <==> site == siteId && target in targets
  {
    var refs := Refs(siteId, scope, targets);
    if site == siteId && target in targets {
      var i :| 0 <= i < |targets| && targets[i] == target;
      assert refs[i] in refs;
    }
  }

  lemma {:induction false} WalkRefsCite(nodes: seq<Node>, scope: ScopePath, site: NodeId, target: NodeId)
    ensures HasRef(WalkRefs(nodes, scope), site, target) <==> NodesCite(nodes, site, target)
    decreases nodes, 0
  {
    if nodes != [] {
      var rest := nodes[1..];
      NodeRefsCite(nodes[0], scope, site, target);
      WalkRefsCite(rest, scope, site, target);
      HasRefConcat(NodeRefs(nodes[0], scope), WalkRefs(rest, scope), site, target);
      NodesCiteCons(nodes, site, target);
    }
  }

  lemma NodesCiteCons(nodes: seq<Node>, site: NodeId, target: NodeId)
    requires nodes != []
    ensures NodesCite(nodes, site, target) <==>
            NodeCites(nodes[0], site, target) || NodesCite(nodes[1..], site, target)
  {
    var rest := nodes[1..];
    if i :| 0 <= i < |rest| && NodeCites(rest[i], site, target) {
      assert nodes[i + 1] == rest[i];
    }
    if i :| 0 < i < |nodes| && NodeCites(nodes[i], site, target) {
      assert rest[i - 1] == nodes[i];
    }
  }

  lemma {:induction false} NodeRefsCite(node: Node, scope: ScopePath, site: NodeId, target: NodeId)
    ensures HasRef(NodeRefs(node, scope), site, target) <==> NodeCites(node, site, target)
    decreases node, 1
  {
    match node
    case StepNode(step) =>
      HasRefOfTargets(step.id, scope, CollectStepReferenceIds(step), site, target);
      DependenciesAreWaitedFor(step, target);
    case BranchNode(id, selector, cases) =>
      HasRefConcat(Refs(id, scope, CollectStepBindingIds(selector)), CaseRefs(id, cases, scope), site, target);
      HasRefOfTargets(id, scope, CollectStepBindingIds(selector), site, target);
      BindingIdsAreMentions(selector, target);
      CaseRefsCite(id, cases, scope, site, target);
    case MapNode(id, source, body, results) =>
      var inner := BodyScope(scope, id);
      var a, b, c := Refs(id, scope, CollectStepBindingIds(source)), WalkRefs(body, inner),
                     Refs(id, inner, CollectFieldIds(results));
      HasRefConcat(a + b, c, site, target);
      HasRefConcat(a, b, site, target);
      HasRefOfTargets(id, scope, CollectStepBindingIds(source), site, target);
      HasRefOfTargets(id, inner, CollectFieldIds(results), site, target);
      BindingIdsAreMentions(source, target);
      FieldIdsAreMentions(results, target);
      WalkRefsCite(body, inner, site, target);
  }

  ghost predicate CaseCites(branchId: NodeId, c: Case, site: NodeId, target: NodeId) {
    NodesCite(c.steps, site, target) || (site == branchId && FieldsMention(c.results, target))
  }

  lemma {:induction false} CaseRefsCite(
    branchId: NodeId, cases: seq<Case>, scope: ScopePath, site: NodeId, target: NodeId)
    ensures HasRef(CaseRefs(branchId, cases, scope), site, target) <==>
            exists k :: 0 <= k < |cases| && CaseCites(branchId, cases[k], site, target)
    decreases cases, 0
  {
    if cases != [] {
      var rest, inner := cases[1..], CaseScope(scope, branchId, cases[0].key);
      var a, b := WalkRefs(cases[0].steps, inner), Refs(branchId, inner, CollectFieldIds(cases[0].results));
      HasRefConcat(a + b, CaseRefs(branchId, rest, scope), site, target);
      HasRefConcat(a, b, site, target);
      WalkRefsCite(cases[0].steps, inner, site, target);
      HasRefOfTargets(branchId, inner, CollectFieldIds(cases[0].results), site, target);
      FieldIdsAreMentions(cases[0].results, target);
      CaseRefsCite(branchId, rest, scope, site, target);
      CasesCiteCons(branchId, cases, site, target);
    }
  }

  lemma CasesCiteCons(branchId: NodeId, cases: seq<Case>, site: NodeId, target: NodeId)
    requires cases != []
    ensures (exists k :: 0 <= k < |cases| && CaseCites(branchId, cases[k], site, target)) <==>
            || CaseCites(branchId, cases[0], site, target)
            || exists k :: 0 <= k < |cases[1..]| && CaseCites(branchId, cases[1..][k], site, target)
  {
    var rest := cases[1..];
    if k :| 0 <= k < |rest| && CaseCites(branchId, rest[k], site, target) {
      assert cases[k + 1] == rest[k];
    }
    if k :| 0 < k < |cases| && CaseCites(branchId, cases[k], site, target) {
      assert rest[k - 1] == cases[k];
    }
  }

  lemma {:induction false} FallbackRefsCite(fallbacks: seq<Field>, site: NodeId, target: NodeId)
    ensures HasRef(FallbackRefs(fallbacks), site, target) <==> FallbackCites(fallbacks, site, target)
  {
    if fallbacks != [] {
      var rest, first := fallbacks[1..], fallbacks[0];
      HasRefConcat(Refs(first.key, [], CollectStepBindingIds(first.binding)), FallbackRefs(rest), site, target);
      HasRefOfTargets(first.key, [], CollectStepBindingIds(first.binding), site, target);
      BindingIdsAreMentions(first.binding, target);
      FallbackRefsCite(rest, site, target);
      assert forall k :: 0 <= k < |rest| ==> rest[k] == fallbacks[k + 1];
      if k :| 0 < k < |fallbacks| && site == fallbacks[k].key && Mentions(fallbacks[k].binding, target) {
        assert rest[k - 1] == fallbacks[k];
      }
      if k :| 0 <= k < |rest| && site == rest[k].key && Mentions(rest[k].binding, target) {
        assert fallbacks[k + 1] == rest[k];
      }
    }
  }

  /** The references collected from a document are those it makes, site by site. */
  lemma DocumentRefsCite(spec: Spec, site: NodeId, target: NodeId)
    ensures HasRef(DocumentRefs(spec), site, target) <==> DocumentCites(spec, site, target)
  {
    var a, b, c := WalkRefs(spec.steps, []), Refs("", [], CollectFieldIds(spec.outputs)), FallbackRefs(spec.fallbacks);
    HasRefConcat(a + b, c, site, target);
    HasRefConcat(a, b, site, target);
    WalkRefsCite(spec.steps, [], site, target);
    HasRefOfTargets("", [], CollectFieldIds(spec.outputs), site, target);
    FieldIdsAreMentions(spec.outputs, target);
    FallbackRefsCite(spec.fallbacks, site, target);
  }

  // ---- the errors ----------------------------------------------------------------------------

  lemma {:induction false} RefErrorsAre(idToScope: map<NodeId, ScopePath>, refs: seq<Ref>, e: CompileError)
    ensures !e.DuplicateStepId? || e !in RefErrors(idToScope, refs)
    ensures e.UnresolvedStepReference? ==>
              (e in RefErrors(idToScope, refs) <==> HasRef(refs, e.siteId, e.targetId) && e.targetId !in idToScope)
  {
    if refs != [] {
      var init, last := refs[..|refs| - 1], refs[|refs| - 1];
      assert refs == init + [last];
      RefErrorsAre(idToScope, init, e);
      if e.UnresolvedStepReference? {
        HasRefConcat(init, [last], e.siteId, e.targetId);
        assert HasRef([last], e.siteId, e.targetId) <==> last.siteId == e.siteId && last.targetId == e.targetId by {
          assert last in [last];
        }
      }
    }
  }

  /** A duplicate is reported for exactly the ids that are defined more than once. */
  lemma DuplicateReportedIff(spec: Spec, id: NodeId)
    ensures DuplicateStepId(id) in Errors(spec) <==> AppearsTwice(AllIds(spec.steps), id)
  {
    var defs := WalkDefs(spec.steps, []);
    var c := RecordAll(Collected(map[], []), defs);
    RecordedDuplicates(defs);
    WalkDefIds(spec.steps, []);
    RefErrorsAre(c.idToScope, DocumentRefs(spec), DuplicateStepId(id));
    if id in c.duplicateIds {
      var i :| 0 <= i < |c.duplicateIds| && c.duplicateIds[i] == id;
      assert DuplicateErrors(c.duplicateIds)[i] == DuplicateStepId(id);
    }
  }

  /** A reference is reported as unresolved for exactly the sites that reference an id that
      is defined nowhere. */
  lemma UnresolvedReportedIff(spec: Spec, site: NodeId, target: NodeId)
    ensures UnresolvedStepReference(site, target) in Errors(spec) <==>
            DocumentCites(spec, site, target) && target !in AllIds(spec.steps)
  {
    var defs := WalkDefs(spec.steps, []);
    var c := RecordAll(Collected(map[], []), defs);
    RecordedDuplicates(defs);
    WalkDefIds(spec.steps, []);
    RefErrorsAre(c.idToScope, DocumentRefs(spec), UnresolvedStepReference(site, target));
    DocumentRefsCite(spec, site, target);
  }
}
