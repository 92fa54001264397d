/**
  The grammar of a workflow document (src/workflow-spec/domain) and the walks that
  find every step reference in it (src/workflow-spec/binding-refs.ts,
  src/engine/dependency-graph.ts).

  A JSON object whose entries are visited in order is a sequence of entries; an
  absent optional list or object is an empty one.
 */
module WorkflowSpecs {

  type NodeId = string

  /** A runtime value, distinguished as far as the worker distinguishes it: a string,
      a number or boolean by what String() prints, anything else by its JSON text. */
  datatype Value = Undefined | Text(text: string) | Scalar(printed: string) | Json(encoded: string)

  type Record = map<string, Value>

  datatype Binding =
    | Static(urn: string)
    | Session(key: string)
    | Request(param: string)
    | StepOutput(id: NodeId, output: string)
    | Item
    | Literal(value: Value)
    | Compute(using: seq<Field>)
    | ItemResource(itemId: Binding)

  datatype Field = Field(key: string, binding: Binding)

  datatype Step = Step(id: NodeId, service: string, operation: string, dependsOn: seq<NodeId>, inputs: seq<Field>)

  datatype Node =
    | StepNode(step: Step)
    | BranchNode(branchId: NodeId, selector: Binding, cases: seq<Case>)
    | MapNode(mapId: NodeId, source: Binding, body: seq<Node>, results: seq<Field>)
  {
    function Id(): NodeId {
      match this
      case StepNode(step) => step.id
      case BranchNode(id, _, _) => id
      case MapNode(id, _, _, _) => id
    }
  }

  datatype Case = Case(key: string, steps: seq<Node>, results: seq<Field>)

  /** `fallbacks` holds the sessionState entries that declare a fallback binding. */
  datatype Spec = Spec(steps: seq<Node>, outputs: seq<Field>, fallbacks: seq<Field>)

  /** Every step id referenced from a binding, however deeply nested. */
  function CollectStepBindingIds(b: Binding): seq<NodeId>
    decreases b
  {
    match b
    case StepOutput(id, _) => [id]
    case Compute(using) => CollectFieldIds(using)
    case ItemResource(itemId) => CollectStepBindingIds(itemId)
    case _ => []
  }

  function CollectFieldIds(fields: seq<Field>): seq<NodeId>
    decreases fields
  {
    if fields == [] then []
    else CollectStepBindingIds(fields[0].binding) + CollectFieldIds(fields[1..])
  }

  function CollectStepReferenceIds(step: Step): seq<NodeId> {
    step.dependsOn + CollectFieldIds(step.inputs)
  }

  ghost predicate NoDuplicates(s: seq<NodeId>) {
    forall i, j :: 0 <= i < j < |s| ==> s[i] != s[j]
  }

  /** Array.from(new Set(s)): first occurrences, in order. */
  function Dedup(s: seq<NodeId>): (r: seq<NodeId>)
    ensures forall x :: x in r <==> x in s
    ensures NoDuplicates(r)
  {
    if s == [] then []
    else
      var rest := Dedup(s[..|s| - 1]);
      var last := s[|s| - 1];
      assert s == s[..|s| - 1] + [last];
      if last in rest then rest else rest + [last]
  }

  /** The ids a step waits for, each once. */
  function ComputeStepDependencies(step: Step): (deps: seq<NodeId>)
    ensures forall id :: id in deps <==> id in CollectStepReferenceIds(step)
    ensures NoDuplicates(deps)
  {
    Dedup(CollectStepReferenceIds(step))
  }

  // ---- what a document mentions, from its own fields ------------------------------------

  /** The binding names that step: directly, in an argument of a computed value at any
      depth, or in the item id of an item lookup. */
  ghost predicate Mentions(b: Binding, id: NodeId)
    decreases b
  {
    match b
    case StepOutput(source, _) => source == id
    case Compute(using) => exists k :: 0 <= k < |using| && Mentions(using[k].binding, id)
    case ItemResource(itemId) => Mentions(itemId, id)
    case _ => false
  }

  ghost predicate FieldsMention(fields: seq<Field>, id: NodeId) {
    exists k :: 0 <= k < |fields| && Mentions(fields[k].binding, id)
  }

  /** The step lists that id in its dependsOn, or reads from it. */
  ghost predicate WaitsFor(step: Step, id: NodeId) {
    id in step.dependsOn || FieldsMention(step.inputs, id)
  }

  lemma {:induction false} BindingIdsAreMentions(b: Binding, id: NodeId)
    ensures id in CollectStepBindingIds(b) <==> Mentions(b, id)
    decreases b
  {
    match b
    case Compute(using) => FieldIdsAreMentions(using, id);
    case ItemResource(itemId) => BindingIdsAreMentions(itemId, id);
    case _ =>
  }

  lemma {:induction false} FieldIdsAreMentions(fields: seq<Field>, id: NodeId)
    ensures id in CollectFieldIds(fields) <==> FieldsMention(fields, id)
    decreases fields
  {
    if fields != [] {
      var rest := fields[1..];
      BindingIdsAreMentions(fields[0].binding, id);
      FieldIdsAreMentions(rest, id);
      assert forall k :: 0 <= k < |rest| ==> rest[k] == fields[k + 1];
      if k :| 0 <= k < |rest| && Mentions(rest[k].binding, id) {
        assert Mentions(fields[k + 1].binding, id);
      }
      if k :| 0 < k < |fields| && Mentions(fields[k].binding, id) {
        assert rest[k - 1] == fields[k];
      }
    }
  }

  /** The dependencies computed for a step are what it waits for, each once. */
  lemma DependenciesAreWaitedFor(step: Step, id: NodeId)
    ensures id in CollectStepReferenceIds(step) <==> WaitsFor(step, id)
    ensures id in ComputeStepDependencies(step) <==> WaitsFor(step, id)
    ensures NoDuplicates(ComputeStepDependencies(step))
  {
    FieldIdsAreMentions(step.inputs, id);
  }

  lemma {:induction false} FieldIdsContain(fields: seq<Field>, i: nat)
    requires i < |fields|
    ensures forall id :: id in CollectStepBindingIds(fields[i].binding) ==> id in CollectFieldIds(fields)
  {
    if i > 0 {
      FieldIdsContain(fields[1..], i - 1);
    }
  }
}
