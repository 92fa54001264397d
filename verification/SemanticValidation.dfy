/**
  Step ids and step references of a whole document (src/dsl-compiler/node-walk.ts,
  src/dsl-compiler/semantic-validation.ts): the walk over the node tree with string
  scope paths, and the errors reported from what it collected.
 */
module SemanticValidation {
  import opened WorkflowSpecs

  type ScopePath = seq<string>

  datatype Def = Def(id: NodeId, scope: ScopePath)

  datatype Ref = Ref(siteId: NodeId, siteScope: ScopePath, targetId: NodeId)

  datatype CompileError =
    | DuplicateStepId(id: NodeId)
    | UnresolvedStepReference(siteId: NodeId, targetId: NodeId)
    | InternalStepIdReferencedExternally(siteId: NodeId, targetId: NodeId)

  function CaseScope(scope: ScopePath, branchId: NodeId, key: string): ScopePath {
    scope + ["branch:" + branchId, "case:" + key]
  }

  function BodyScope(scope: ScopePath, mapId: NodeId): ScopePath {
    scope + ["map:" + mapId]
  }

  // ---- the walk, as the sequence of what it records -----------------------------------

  function Refs(siteId: NodeId, scope: ScopePath, targets: seq<NodeId>): seq<Ref> {
    seq(|targets|, i requires 0 <= i < |targets| => Ref(siteId, scope, targets[i]))
  }

  /** Ids recorded by walking a list of nodes, with their scopes, in order. */
  function WalkDefs(nodes: seq<Node>, scope: ScopePath): seq<Def>
    decreases nodes
  {
    if nodes == [] then []
    else [Def(nodes[0].Id(), scope)] + InnerDefs(nodes[0], scope) + WalkDefs(nodes[1..], scope)
  }

  function InnerDefs(node: Node, scope: ScopePath): seq<Def>
    decreases node
  {
    match node
    case StepNode(_) => []
    case BranchNode(id, _, cases) => CaseDefs(id, cases, scope)
    case MapNode(id, _, body, _) => WalkDefs(body, BodyScope(scope, id))
  }

  function CaseDefs(branchId: NodeId, cases: seq<Case>, scope: ScopePath): seq<Def>
    decreases cases
  {
    if cases == [] then []
    else WalkDefs(cases[0].steps, CaseScope(scope, branchId, cases[0].key)) + CaseDefs(branchId, cases[1..], scope)
  }

  /** References recorded by walking a list of nodes, in order. */
  function WalkRefs(nodes: seq<Node>, scope: ScopePath): seq<Ref>
    decreases nodes
  {
    if nodes == [] then [] else NodeRefs(nodes[0], scope) + WalkRefs(nodes[1..], scope)
  }

  function NodeRefs(node: Node, scope: ScopePath): seq<Ref>
    decreases node
  {
    match node
    case StepNode(step) => Refs(step.id, scope, CollectStepReferenceIds(step))
    case BranchNode(id, selector, cases) =>
      Refs(id, scope, CollectStepBindingIds(selector)) + CaseRefs(id, cases, scope)
    case MapNode(id, source, body, results) =>
      Refs(id, scope, CollectStepBindingIds(source)) + WalkRefs(body, BodyScope(scope, id))
        + Refs(id, BodyScope(scope, id), CollectFieldIds(results))
  }

  function CaseRefs(branchId: NodeId, cases: seq<Case>, scope: ScopePath): seq<Ref>
    decreases cases
  {
    if cases == [] then []
    else
      var inner := CaseScope(scope, branchId, cases[0].key);
      WalkRefs(cases[0].steps, inner) + Refs(branchId, inner, CollectFieldIds(cases[0].results))
        + CaseRefs(branchId, cases[1..], scope)
  }

  /** The document-level references: outputs and session fallbacks, at the root scope. */
  function DocumentRefs(spec: Spec): seq<Ref> {
    WalkRefs(spec.steps, []) + Refs("", [], CollectFieldIds(spec.outputs)) + FallbackRefs(spec.fallbacks)
  }

  function FallbackRefs(fallbacks: seq<Field>): seq<Ref> {
    if fallbacks == [] then []
    else Refs(fallbacks[0].key, [], CollectStepBindingIds(fallbacks[0].binding)) + FallbackRefs(fallbacks[1..])
  }

  // ---- what the walk collects ------------------------------------------------------------

  datatype Collected = Collected(idToScope: map<NodeId, ScopePath>, duplicateIds: seq<NodeId>)

  /** recordId: the first scope is kept, a later occurrence makes the id a duplicate. */
  function RecordId(c: Collected, d: Def): Collected {
    if d.id in c.idToScope
    then if d.id in c.duplicateIds then c else c.(duplicateIds := c.duplicateIds + [d.id])
    else c.(idToScope := c.idToScope[d.id := d.scope])
  }

  function RecordAll(c: Collected, defs: seq<Def>): Collected
    decreases |defs|
  {
    if defs == [] then c else RecordAll(RecordId(c, defs[0]), defs[1..])
  }

  lemma {:induction false} RecordAllConcat(c: Collected, a: seq<Def>, b: seq<Def>)
    ensures RecordAll(c, a + b) == RecordAll(RecordAll(c, a), b)
    decreases |a|
  {
    if a == [] {
      assert a + b == b;
    } else {
      assert (a + b)[1..] == a[1..] + b;
      RecordAllConcat(RecordId(c, a[0]), a[1..], b);
    }
  }

  function IsVisible(targetScope: ScopePath, siteScope: ScopePath): (visible: bool)
    ensures visible <==> targetScope <= siteScope
  {
    |targetScope| <= |siteScope| && forall i :: 0 <= i < |targetScope| ==> siteScope[i] == targetScope[i]
  }

  function RefErrors(idToScope: map<NodeId, ScopePath>, refs: seq<Ref>): seq<CompileError> {
    if refs == [] then []
    else
      var init, r := RefErrors(idToScope, refs[..|refs| - 1]), refs[|refs| - 1];
      if r.targetId !in idToScope then init + [UnresolvedStepReference(r.siteId, r.targetId)]
      else if !IsVisible(idToScope[r.targetId], r.siteScope)
      then init + [InternalStepIdReferencedExternally(r.siteId, r.targetId)]
      else init
  }

  function Errors(spec: Spec): seq<CompileError> {
    var c := RecordAll(Collected(map[], []), WalkDefs(spec.steps, []));
    DuplicateErrors(c.duplicateIds) + RefErrors(c.idToScope, DocumentRefs(spec))
  }

  /** The visitor state of one validation, filled by the walk. */
  class WalkResult {
    var collected: Collected
    var references: seq<Ref>

    constructor ()
      ensures collected == Collected(map[], []) && references == []
    {
      collected, references := Collected(map[], []), [];
    }

    method PushRefs(siteId: NodeId, scope: ScopePath, targets: seq<NodeId>)
      modifies this`references
      ensures references == old(references) + Refs(siteId, scope, targets)
    {
      var start := references;
      for i := 0 to |targets|
        invariant references == start + Refs(siteId, scope, targets)[..i]
      {
        references := references + [Ref(siteId, scope, targets[i])];
      }
    }

    method WalkNodes(nodes: seq<Node>, scope: ScopePath)
      modifies this
      ensures collected == RecordAll(old(collected), WalkDefs(nodes, scope))
      ensures references == old(references) + WalkRefs(nodes, scope)
      decreases nodes, 1
    {
      ghost var defs, refs := RecordAll(collected, WalkDefs(nodes, scope)), references + WalkRefs(nodes, scope);
      for i := 0 to |nodes|
        invariant defs == RecordAll(collected, WalkDefs(nodes[i..], scope))
        invariant refs == references + WalkRefs(nodes[i..], scope)
      {
        ghost var rest := nodes[i..];
        assert rest[0] == nodes[i] && rest[1..] == nodes[i + 1..];
        WalkDefsStep(collected, rest, scope);
        Associative(references, NodeRefs(nodes[i], scope), WalkRefs(rest[1..], scope));
        WalkNode(nodes[i], scope);
      }
      assert nodes[|nodes|..] == [];
    }

    method WalkNode(node: Node, scope: ScopePath)
      modifies this
      ensures collected == RecordAll(RecordId(old(collected), Def(node.Id(), scope)), InnerDefs(node, scope))
      ensures references == old(references) + NodeRefs(node, scope)
      decreases node, 2
    {
      collected := RecordId(collected, Def(node.Id(), scope));
      match node
      case StepNode(step) =>
        PushRefs(step.id, scope, CollectStepReferenceIds(step));
      case BranchNode(id, selector, cases) =>
        Associative(references, Refs(id, scope, CollectStepBindingIds(selector)), CaseRefs(id, cases, scope));
        PushRefs(id, scope, CollectStepBindingIds(selector));
        WalkCases(id, cases, scope);
      case MapNode(_, _, _, _) =>
        WalkMap(node, scope);
    }

    method WalkMap(node: Node, scope: ScopePath)
      requires node.MapNode?
      modifies this
      ensures collected == RecordAll(old(collected), InnerDefs(node, scope))
      ensures references == old(references) + NodeRefs(node, scope)
      decreases node, 1
    {
      var id, bodyScope := node.mapId, BodyScope(scope, node.mapId);
      ghost var a, b := Refs(id, scope, CollectStepBindingIds(node.source)), WalkRefs(node.body, bodyScope);
      Associative(references, a + b, Refs(id, bodyScope, CollectFieldIds(node.results)));
      Associative(references, a, b);
      PushRefs(id, scope, CollectStepBindingIds(node.source));
      WalkNodes(node.body, bodyScope);
      PushRefs(id, bodyScope, CollectFieldIds(node.results));
    }

    method WalkCases(branchId: NodeId, cases: seq<Case>, scope: ScopePath)
      modifies this
      ensures collected == RecordAll(old(collected), CaseDefs(branchId, cases, scope))
      ensures references == old(references) + CaseRefs(branchId, cases, scope)
      decreases cases, 1
    {
      ghost var defs := RecordAll(collected, CaseDefs(branchId, cases, scope));
      ghost var refs := references + CaseRefs(branchId, cases, scope);
      for i := 0 to |cases|
        invariant defs == RecordAll(collected, CaseDefs(branchId, cases[i..], scope))
        invariant refs == references + CaseRefs(branchId, cases[i..], scope)
      {
        ghost var rest := cases[i..];
        assert rest[0] == cases[i] && rest[1..] == cases[i + 1..];
        var inner := CaseScope(scope, branchId, cases[i].key);
        RecordAllConcat(collected, WalkDefs(cases[i].steps, inner), CaseDefs(branchId, rest[1..], scope));
        Associative(references,
                    WalkRefs(cases[i].steps, inner) + Refs(branchId, inner, CollectFieldIds(cases[i].results)),
                    CaseRefs(branchId, rest[1..], scope));
        Associative(references, WalkRefs(cases[i].steps, inner),
                    Refs(branchId, inner, CollectFieldIds(cases[i].results)));
        WalkNodes(cases[i].steps, inner);
        PushRefs(branchId, inner, CollectFieldIds(cases[i].results));
      }
      assert cases[|cases|..] == [];
    }

    method PushFallbacks(fallbacks: seq<Field>)
      modifies this`references
      ensures references == old(references) + FallbackRefs(fallbacks)
    {
      ghost var refs := references + FallbackRefs(fallbacks);
      for i := 0 to |fallbacks|
        invariant refs == references + FallbackRefs(fallbacks[i..])
      {
        ghost var rest := fallbacks[i..];
        assert rest[0] == fallbacks[i] && rest[1..] == fallbacks[i + 1..];
        Associative(references, Refs(fallbacks[i].key, [], CollectStepBindingIds(fallbacks[i].binding)),
                    FallbackRefs(rest[1..]));
        PushRefs(fallbacks[i].key, [], CollectStepBindingIds(fallbacks[i].binding));
      }
      assert fallbacks[|fallbacks|..] == [];
    }
  }

  lemma Associative(a: seq<Ref>, b: seq<Ref>, c: seq<Ref>)
    ensures a + (b + c) == (a + b) + c
  {
  }

  lemma WalkDefsStep(c: Collected, nodes: seq<Node>, scope: ScopePath)
    requires nodes != []
    ensures RecordAll(c, WalkDefs(nodes, scope)) ==
            RecordAll(RecordAll(RecordId(c, Def(nodes[0].Id(), scope)), InnerDefs(nodes[0], scope)),
                      WalkDefs(nodes[1..], scope))
  {
    var d, inner, rest := Def(nodes[0].Id(), scope), InnerDefs(nodes[0], scope), WalkDefs(nodes[1..], scope);
    assert WalkDefs(nodes, scope) == [d] + (inner + rest);
    assert ([d] + (inner + rest))[1..] == inner + rest;
    RecordAllConcat(RecordId(c, d), inner, rest);
  }

  /** The walk over the whole document. */
  method CollectReferences(spec: Spec) returns (c: Collected, refs: seq<Ref>)
    ensures c == RecordAll(Collected(map[], []), WalkDefs(spec.steps, []))
    ensures refs == DocumentRefs(spec)
  {
    var result := new WalkResult();
    result.WalkNodes(spec.steps, []);
    result.PushRefs("", [], CollectFieldIds(spec.outputs));
    result.PushFallbacks(spec.fallbacks);
    return result.collected, result.references;
  }

  function DuplicateErrors(ids: seq<NodeId>): seq<CompileError> {
    seq(|ids|, i requires 0 <= i < |ids| => DuplicateStepId(ids[i]))
  }

  lemma RefErrorsSnoc(found: seq<CompileError>, idToScope: map<NodeId, ScopePath>, refs: seq<Ref>, i: nat)
    requires i < |refs|
    ensures var r, errors := refs[i], found + RefErrors(idToScope, refs[..i]);
            found + RefErrors(idToScope, refs[..i + 1]) ==
              if r.targetId !in idToScope then errors + [UnresolvedStepReference(r.siteId, r.targetId)]
              else if !IsVisible(idToScope[r.targetId], r.siteScope)
              then errors + [InternalStepIdReferencedExternally(r.siteId, r.targetId)]
              else errors
  {
    assert refs[..i + 1][..i] == refs[..i];
  }

  method DuplicatesFound(ids: seq<NodeId>) returns (errors: seq<CompileError>)
    ensures errors == DuplicateErrors(ids)
  {
    errors := [];
    for i := 0 to |ids|
      invariant errors == DuplicateErrors(ids)[..i]
    {
      errors := errors + [DuplicateStepId(ids[i])];
    }
  }

  /** The second half of validateStepReferences: every reference against what was recorded. */
  method CheckReferences(found: seq<CompileError>, idToScope: map<NodeId, ScopePath>, refs: seq<Ref>)
    returns (errors: seq<CompileError>)
    ensures errors == found + RefErrors(idToScope, refs)
  {
    errors := found;
    for i := 0 to |refs|
      invariant errors == found + RefErrors(idToScope, refs[..i])
    {
      var r := refs[i];
      RefErrorsSnoc(found, idToScope, refs, i);
      if r.targetId !in idToScope {
        errors := errors + [UnresolvedStepReference(r.siteId, r.targetId)];
        continue;
      }
      if !IsVisible(idToScope[r.targetId], r.siteScope) {
        errors := errors + [InternalStepIdReferencedExternally(r.siteId, r.targetId)];
      }
    }
    assert refs[..|refs|] == refs;
  }

  /** validateStepReferences. */
  method ValidateStepReferences(spec: Spec) returns (errors: seq<CompileError>)
    ensures errors == Errors(spec)
  {
    var c, refs := CollectReferences(spec);
    errors := DuplicatesFound(c.duplicateIds);
    errors := CheckReferences(errors, c.idToScope, refs);
  }
}
