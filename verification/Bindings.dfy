/**
  Binding resolution (src/engine/bindings.ts): what a step reads, from the run's
  request input and the outputs recorded so far.
 */
module Bindings {
  import opened Wrappers
  import opened WorkflowSpecs

  datatype EngineError =
    | UnsupportedNodeKind(nodeId: NodeId)
    | DuplicateNodeId(nodeId: NodeId)
    | NodeNotFound(nodeId: NodeId)
    | BindingKindNotSupported
    | NodeOutputMissing(id: NodeId, output: string)
    | RunNotFound

  type Outputs = map<NodeId, Record>

  function Lookup(r: Record, key: string): Value {
    if key in r then r[key] else Undefined
  }

  function ResolveBinding(b: Binding, input: Record, outputs: Outputs): Result<Value, EngineError> {
    match b
    case Literal(v) => Success(v)
    case Request(param) => Success(Lookup(input, param))
    case StepOutput(id, output) =>
      if id in outputs then Success(Lookup(outputs[id], output)) else Failure(NodeOutputMissing(id, output))
    case _ => Failure(BindingKindNotSupported)
  }

  /** Object.fromEntries over the resolved entries: the first error wins, a later
      entry overwrites an earlier one of the same key. */
  function ResolveFields(fields: seq<Field>, input: Record, outputs: Outputs): Result<Record, EngineError> {
    if fields == [] then Success(map[])
    else
      var init := ResolveFields(fields[..|fields| - 1], input, outputs);
      if init.Failure? then init
      else
        var last := fields[|fields| - 1];
        var v := ResolveBinding(last.binding, input, outputs);
        if v.Failure? then Failure(v.error) else Success(init.value[last.key := v.value])
  }

  /** Resolution looks at the referenced outputs only: two tables that agree on them
      give the same record or the same error. */
  lemma {:induction false} ResolutionReadsReferencesOnly(fields: seq<Field>, input: Record, a: Outputs, b: Outputs)
    requires forall id :: id in CollectFieldIds(fields) ==> (id in a <==> id in b) && (id in a ==> a[id] == b[id])
    ensures ResolveFields(fields, input, a) == ResolveFields(fields, input, b)
  {
    if fields != [] {
      PrefixFieldIds(fields);
      FieldIdsContain(fields, |fields| - 1);
      ResolutionReadsReferencesOnly(fields[..|fields| - 1], input, a, b);
    }
  }

  lemma {:induction false} PrefixFieldIds(fields: seq<Field>)
    requires fields != []
    ensures forall id :: id in CollectFieldIds(fields[..|fields| - 1]) ==> id in CollectFieldIds(fields)
  {
    if |fields| > 1 {
      assert fields[..|fields| - 1][1..] == fields[1..][..|fields| - 2];
      PrefixFieldIds(fields[1..]);
    }
  }

  predicate Resolvable(b: Binding, outputs: Outputs) {
    b.Literal? || b.Request? || (b.StepOutput? && b.id in outputs)
  }

  /** `v` is what the binding stands for: its literal, the request's parameter, or the
      value recorded under that name by that step; an absent one is Undefined. */
  ghost predicate StandsForValue(b: Binding, input: Record, outputs: Outputs, v: Value) {
    match b
    case Literal(x) => v == x
    case Request(param) => if param in input then v == input[param] else v == Undefined
    case StepOutput(id, name) =>
      id in outputs && if name in outputs[id] then v == outputs[id][name] else v == Undefined
    case _ => false
  }

  ghost predicate IsLastField(fields: seq<Field>, key: string, i: nat) {
    && i < |fields| && fields[i].key == key
    && forall j :: i < j < |fields| ==> fields[j].key != key
  }

  /** `record` holds for each key the value its last field stands for, and nothing else. */
  ghost predicate IsResolved(fields: seq<Field>, input: Record, outputs: Outputs, record: Record) {
    && (forall k :: k in record ==> exists i: nat :: IsLastField(fields, k, i))
    && (forall k, i: nat :: IsLastField(fields, k, i) ==>
          k in record && StandsForValue(fields[i].binding, input, outputs, record[k]))
  }

  /** The first field that cannot be resolved, and the error it raises. */
  ghost predicate FirstUnresolvable(fields: seq<Field>, outputs: Outputs, i: nat, error: EngineError) {
    && i < |fields| && !Resolvable(fields[i].binding, outputs)
    && (forall j :: 0 <= j < i ==> Resolvable(fields[j].binding, outputs))
    && error == if fields[i].binding.StepOutput?
                then NodeOutputMissing(fields[i].binding.id, fields[i].binding.output)
                else BindingKindNotSupported
  }

  lemma IsResolvedSnoc(init: seq<Field>, last: Field, input: Record, outputs: Outputs, record: Record, v: Value)
    requires IsResolved(init, input, outputs, record) && StandsForValue(last.binding, input, outputs, v)
    ensures IsResolved(init + [last], input, outputs, record[last.key := v])
  {
    var fields, r := init + [last], record[last.key := v];
    forall k | k in r
      ensures exists i: nat :: IsLastField(fields, k, i)
    {
      if k == last.key {
        assert IsLastField(fields, k, |init|);
      } else {
        var i: nat :| IsLastField(init, k, i);
        assert IsLastField(fields, k, i);
      }
    }
    forall k, i: nat | IsLastField(fields, k, i)
      ensures k in r && StandsForValue(fields[i].binding, input, outputs, r[k])
    {
      if i < |init| {
        assert fields[|init|].key != k;
        assert forall j :: 0 <= j < |init| ==> fields[j] == init[j];
        assert IsLastField(init, k, i);
      }
    }
  }

  lemma FirstUnresolvableStays(init: seq<Field>, last: Field, outputs: Outputs, i: nat, error: EngineError)
    requires FirstUnresolvable(init, outputs, i, error)
    ensures FirstUnresolvable(init + [last], outputs, i, error)
  {
    assert forall j :: 0 <= j < |init| ==> (init + [last])[j] == init[j];
  }

  ghost predicate AllResolvable(fields: seq<Field>, outputs: Outputs) {
    forall i :: 0 <= i < |fields| ==> Resolvable(fields[i].binding, outputs)
  }

  lemma AllResolvableSnoc(init: seq<Field>, last: Field, outputs: Outputs)
    ensures AllResolvable(init + [last], outputs) <==>
            AllResolvable(init, outputs) && Resolvable(last.binding, outputs)
  {
    var fields := init + [last];
    assert fields[|init|] == last && forall j :: 0 <= j < |init| ==> fields[j] == init[j];
  }

  lemma LastIsUnresolvable(init: seq<Field>, last: Field, outputs: Outputs, error: EngineError)
    requires AllResolvable(init, outputs) && !Resolvable(last.binding, outputs)
    requires error == if last.binding.StepOutput? then NodeOutputMissing(last.binding.id, last.binding.output)
                      else BindingKindNotSupported
    ensures FirstUnresolvable(init + [last], outputs, |init|, error)
  {
    assert forall j :: 0 <= j < |init| ==> (init + [last])[j] == init[j];
  }

  /** Resolution succeeds exactly when every binding is of a supported kind and names a
      recorded output, and then each key has the value its last field stands for;
      otherwise the first field that is not resolvable decides the error. */
  lemma {:induction false} ResolvesIff(fields: seq<Field>, input: Record, outputs: Outputs)
    ensures ResolveFields(fields, input, outputs).Success? <==> AllResolvable(fields, outputs)
    ensures ResolveFields(fields, input, outputs).Success? ==>
              IsResolved(fields, input, outputs, ResolveFields(fields, input, outputs).value)
    ensures ResolveFields(fields, input, outputs).Failure? ==>
              exists i: nat :: FirstUnresolvable(fields, outputs, i, ResolveFields(fields, input, outputs).error)
  {
    if fields != [] {
      var init, last := fields[..|fields| - 1], fields[|fields| - 1];
      var r := ResolveFields(init, input, outputs);
      assert fields == init + [last];
      ResolvesIff(init, input, outputs);
      AllResolvableSnoc(init, last, outputs);
      if r.Failure? {
        var i: nat :| FirstUnresolvable(init, outputs, i, r.error);
        FirstUnresolvableStays(init, last, outputs, i, r.error);
      } else if Resolvable(last.binding, outputs) {
        IsResolvedSnoc(init, last, input, outputs, r.value, ResolveBinding(last.binding, input, outputs).value);
      } else {
        LastIsUnresolvable(init, last, outputs, ResolveFields(fields, input, outputs).error);
      }
    }
  }

  /** Two sources of values that show the same for every parameter and every pair of step
      and output name the fields reference. */
  ghost predicate ShowAlike(fields: seq<Field>, input: Record, outputs: Outputs, input': Record, outputs': Outputs) {
    forall i :: 0 <= i < |fields| ==> BindingShowsAlike(fields[i].binding, input, outputs, input', outputs')
  }

  ghost predicate BindingShowsAlike(b: Binding, input: Record, outputs: Outputs, input': Record, outputs': Outputs) {
    match b
    case Request(param) =>
      (param in input <==> param in input') && (param in input ==> input[param] == input'[param])
    case StepOutput(id, name) =>
      && (id in outputs <==> id in outputs')
      && (id in outputs ==>
            && (name in outputs[id] <==> name in outputs'[id])
            && (name in outputs[id] ==> outputs[id][name] == outputs'[id][name]))
    case _ => true
  }

  /** Resolution looks at nothing else. */
  lemma {:induction false} ResolutionReadsReferencedValuesOnly(
    fields: seq<Field>, input: Record, outputs: Outputs, input': Record, outputs': Outputs)
    requires ShowAlike(fields, input, outputs, input', outputs')
    ensures ResolveFields(fields, input, outputs) == ResolveFields(fields, input', outputs')
  {
    if fields != [] {
      ResolutionReadsReferencedValuesOnly(fields[..|fields| - 1], input, outputs, input', outputs');
      assert BindingShowsAlike(fields[|fields| - 1].binding, input, outputs, input', outputs');
    }
  }

  /** With every reference recorded, resolution can still fail on an unsupported
      binding kind but never on a missing output. */
  lemma {:induction false} RecordedReferencesResolve(fields: seq<Field>, input: Record, outputs: Outputs)
    requires forall id :: id in CollectFieldIds(fields) ==> id in outputs
    ensures ResolveFields(fields, input, outputs).Failure? ==>
              ResolveFields(fields, input, outputs).error == BindingKindNotSupported
  {
    if fields != [] {
      PrefixFieldIds(fields);
      FieldIdsContain(fields, |fields| - 1);
      RecordedReferencesResolve(fields[..|fields| - 1], input, outputs);
    }
  }
}
