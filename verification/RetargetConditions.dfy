/**
 When retargeting succeeds and when a manifest is accepted, as conditions on dimensions, names and sizes that a caller
 can look at beforehand.
 */
module RetargetConditions {
  import opened Common
  import opened Tensors
  import opened Retarget

  // --------------------------------------------------------------- shapes

  /** The dimension is symbolic and its name means this. */
  predicate Named(rules: Rules, dim: Dim, kind: AxisKind) {
    dim.Symbol? && rules.kind(dim.name) == Some(kind)
  }

  predicate Nameless(rules: Rules, dim: Dim) {
    dim.Anonymous? || (dim.Symbol? && rules.kind(dim.name) == None)
  }

  /** The axis of the AR: the last one, for features and rotary tables the one before it from rank three on. */
  predicate AlongAr(role: Role, rank: nat, axis: nat) {
    || (role in {Tokens, PositionIds} && axis + 1 == rank)
    || (role in {SequenceFeatures, RotaryPosition} && axis + (if rank >= 3 then 2 else 1) == rank)
  }

  /** What a dimension of the graph says about the size of its axis. */
  predicate Determines(rules: Rules, dims: seq<Dim>, axis: nat, source: Option<Shape>, role: Role, ar: int, cl: int,
                       size: int)
    requires axis < |dims| && (source.Some? ==> |source.value| == |dims|)
  {
    var dim := dims[axis];
    && (dim.Static? ==> size == dim.size)
    && (Named(rules, dim, Ar) ==> size == ar)
    && (Named(rules, dim, Cl) ==> size == cl)
    && (Named(rules, dim, Batch) ==> size == if source.Some? then source.value[axis] else 1)
    && (Nameless(rules, dim) ==>
          if AlongAr(role, |dims|, axis) && !role.RotaryPosition? then size == ar
          else axis == 0 && source.Some? && size == source.value[0])
  }

  /** The shape a graph input gets: every axis as its dimension says, positive, and the AR where the role proves it. */
  predicate Takes(rules: Rules, abi: Abi, source: Option<Shape>, role: Role, ar: int, cl: int, shape: Shape) {
    && (source.Some? ==> |source.value| == |abi.shape|) && |shape| == |abi.shape|
    && forall axis :: 0 <= axis < |shape| ==>
         && shape[axis] > 0 && Determines(rules, abi.shape, axis, source, role, ar, cl, shape[axis])
         && (AlongAr(role, |shape|, axis) ==> shape[axis] == ar)
  }

  lemma AlongArMeans(role: Role, rank: nat, axis: nat)
    requires axis < rank
    ensures AlongAr(role, rank, axis) <==> ProvesAr(role) && SequenceAxis(role, rank) == Some(axis)
  {
  }

  lemma DeterminesSize(rules: Rules, dims: seq<Dim>, axis: nat, source: Option<Shape>, role: Role, ar: int, cl: int,
                       size: int)
    requires axis < |dims| && (source.Some? ==> |source.value| == |dims|)
    ensures AxisSize(rules, dims, axis, source, role, ar, cl) == Some(size) <==>
              Determines(rules, dims, axis, source, role, ar, cl, size)
  {
    AlongArMeans(role, |dims|, axis);
    match dims[axis]
    case Static(_) =>
    case Anonymous => assert Nameless(rules, dims[axis]);
    case Symbol(name) =>
      match rules.kind(name)
      case None => assert Nameless(rules, dims[axis]);
      case Some(Batch) => assert Named(rules, dims[axis], Batch);
      case Some(Ar) => assert Named(rules, dims[axis], Ar);
      case Some(Cl) => assert Named(rules, dims[axis], Cl);
  }

  lemma {:induction false} AxesResolveExactlyWhen(size: nat -> Option<int>, n: nat, shape: Shape)
    ensures ResolveAxes(size, n) == Ok(shape) <==>
              |shape| == n && forall k :: 0 <= k < n ==> shape[k] > 0 && size(k) == Some(shape[k])
  {
    if n > 0 && |shape| == n {
      AxesResolveExactlyWhen(size, n - 1, shape[..n - 1]);
      assert shape == shape[..n - 1] + [shape[n - 1]];
    }
  }

  lemma SizesResolve(rules: Rules, dims: seq<Dim>, source: Option<Shape>, role: Role, ar: int, cl: int, shape: Shape)
    requires (source.Some? ==> |source.value| == |dims|) && |shape| == |dims|
    ensures ResolveAxes(SizeRule(rules, dims, source, role, ar, cl), |dims|) == Ok(shape) <==>
              forall axis :: 0 <= axis < |dims| ==>
                shape[axis] > 0 && Determines(rules, dims, axis, source, role, ar, cl, shape[axis])
  {
    var size := SizeRule(rules, dims, source, role, ar, cl);
    AxesResolveExactlyWhen(size, |dims|, shape);
    forall axis: nat | axis < |dims|
      ensures size(axis) == Some(shape[axis]) <==> Determines(rules, dims, axis, source, role, ar, cl, shape[axis])
    {
      DeterminesSize(rules, dims, axis, source, role, ar, cl, shape[axis]);
    }
  }

  lemma ArIsProven(role: Role, shape: Shape, ar: int)
    ensures (forall axis :: 0 <= axis < |shape| && AlongAr(role, |shape|, axis) ==> shape[axis] == ar) <==>
              var at := SequenceAxis(role, |shape|); at.Some? && ProvesAr(role) ==> shape[at.value] == ar
  {
    forall axis: nat | axis < |shape| ensures AlongAr(role, |shape|, axis) <==>
                                                ProvesAr(role) && SequenceAxis(role, |shape|) == Some(axis)
    {
      AlongArMeans(role, |shape|, axis);
    }
  }

  /** A graph input resolves to a shape exactly when its dimensions say so. */
  lemma ResolvesExactlyWhen(rules: Rules, abi: Abi, source: Option<Shape>, role: Role, ar: int, cl: int, shape: Shape)
    ensures Resolve(rules, abi, source, role, ar, cl) == Ok(shape) <==> Takes(rules, abi, source, role, ar, cl, shape)
  {
    if (source.Some? ==> |source.value| == |abi.shape|) && |shape| == |abi.shape| {
      SizesResolve(rules, abi.shape, source, role, ar, cl, shape);
      ArIsProven(role, shape, ar);
    }
  }

  // ------------------------------------------------------------- retarget

  predicate Castable(rules: Rules, source: Tensor, abi: Abi) {
    source.dtype == abi.dtype || rules.canCast(source.dtype, abi.dtype)
  }

  /** Positions from `start` on fit the dtype along the last axis. */
  predicate PositionsFit(dtype: DType, shape: Shape, start: int) {
    dtype.integral && shape != [] && dtype.min <= start && start + shape[|shape| - 1] - 1 <= dtype.max
  }

  /** What an input needs besides its shape: a castable source with enough in it, or a role that needs no source. */
  predicate CanFill(rules: Rules, policy: Policy, abi: Abi, source: Option<Tensor>, shape: Shape) {
    var role := rules.role(abi.name);
    && (source.Some? ==> Castable(rules, source.value, abi))
    && (source.None? ==> role.PositionIds? || (role.KvCache? && policy.kvState))
    && (role.PositionIds? ==>
          && (source.Some? ==> source.value.grid.data != [] && source.value.dtype.integral)
          && PositionsFit(abi.dtype, shape, if source.Some? then source.value.grid.data[0].Floor else 0))
    && (role.RotaryPosition? ==>
          && shape != []
          && forall axis :: 0 <= axis < |shape| && AlongAr(role, |shape|, axis) && source.Some? && axis < |source.value.grid.shape|
               ==> shape[axis] <= source.value.grid.shape[axis])
  }

  function ShapeOf(source: Option<Tensor>): Option<Shape> {
    if source.Some? then Some(source.value.grid.shape) else None
  }

  /** An input can be fitted exactly when it has a shape and can be filled in that shape. */
  lemma TransformsExactlyWhen(rules: Rules, policy: Policy, abi: Abi, source: Option<Tensor>, ar: int, cl: int)
    requires source.Some? ==> source.value.grid.Valid()
    ensures Transform(rules, policy, abi, source, ar, cl).Ok? <==>
              exists shape :: Takes(rules, abi, ShapeOf(source), rules.role(abi.name), ar, cl, shape)
                              && CanFill(rules, policy, abi, source, shape)
  {
    var role := rules.role(abi.name);
    var resolved := Resolve(rules, abi, ShapeOf(source), role, ar, cl);
    forall shape
      ensures Takes(rules, abi, ShapeOf(source), role, ar, cl, shape) <==> resolved == Ok(shape)
    {
      ResolvesExactlyWhen(rules, abi, ShapeOf(source), role, ar, cl, shape);
    }
    if resolved.Ok? {
      FillsExactlyWhen(rules, policy, abi, source, ar, cl, resolved.value);
    }
  }

  lemma FillsExactlyWhen(rules: Rules, policy: Policy, abi: Abi, source: Option<Tensor>, ar: int, cl: int, shape: Shape)
    requires source.Some? ==> source.value.grid.Valid()
    requires Resolve(rules, abi, ShapeOf(source), rules.role(abi.name), ar, cl) == Ok(shape)
    ensures Transform(rules, policy, abi, source, ar, cl).Ok? <==> CanFill(rules, policy, abi, source, shape)
  {
    var role, rank := rules.role(abi.name), |shape|;
    if role.RotaryPosition? && rank > 0 {
      var at := SequenceAxis(role, rank).value;
      assert AlongAr(role, rank, at);
      forall axis | 0 <= axis < rank && AlongAr(role, rank, axis) ensures axis == at {
      }
    }
  }

  /** The family is known and may run with this AR and CL. */
  predicate MayUse(rules: Rules, family: string, ar: int, cl: int, policy: Policy) {
    && 0 < ar <= cl && rules.policy(family) == Some(policy)
    && (policy.allowedArs.Some? ==> ar in policy.allowedArs.value)
  }

  lemma {:induction false} AllTransform(rule: Abi -> Result<Tensor, Failure>, abis: seq<Abi>, n: nat)
    requires n <= |abis|
    ensures TransformAll(rule, abis, n).Ok? <==> forall k :: 0 <= k < n ==> rule(abis[k]).Ok?
  {
    if n > 0 { AllTransform(rule, abis, n - 1); }
  }

  /** Every graph input can be fitted from the source input of its name. */
  ghost predicate CanFit(rules: Rules, policy: Policy, inputs: map<string, Tensor>, abi: Abi, ar: int, cl: int) {
    var source := if abi.name in inputs then Some(inputs[abi.name]) else None;
    exists shape :: Takes(rules, abi, ShapeOf(source), rules.role(abi.name), ar, cl, shape)
                    && CanFill(rules, policy, abi, source, shape)
  }

  /**
   A case is retargeted exactly when the family may be retargeted to this AR and CL, every graph input can be fitted,
   and the target graph runs on the fitted inputs.
   */
  lemma RetargetsExactlyWhen(rules: Rules, family: string, source: Manifest, graph: Graph, ar: int, cl: int,
                             capture: Capture, policy: Policy)
    requires ValidTensors(source.inputs) && rules.policy(family) == Some(policy)
    ensures Retargeted(rules, family, source, graph, ar, cl, capture).Ok? <==>
              && MayUse(rules, family, ar, cl, policy) && policy.retargetAllowed
              && (forall k :: 0 <= k < |graph.inputs| ==> CanFit(rules, policy, source.inputs, graph.inputs[k], ar, cl))
              && capture(FittedInputs(rules, policy, source.inputs, graph, ar, cl)).Some?
  {
    var rule := RuleFor(rules, policy, source.inputs, ar, cl);
    AllTransform(rule, graph.inputs, |graph.inputs|);
    forall k | 0 <= k < |graph.inputs|
      ensures rule(graph.inputs[k]).Ok? <==> CanFit(rules, policy, source.inputs, graph.inputs[k], ar, cl)
    {
      TransformsExactlyWhen(rules, policy, graph.inputs[k], SourceOf(source.inputs, graph.inputs[k].name), ar, cl);
    }
  }

  /** What the target graph is run on. */
  function FittedInputs(rules: Rules, policy: Policy, inputs: map<string, Tensor>, graph: Graph, ar: int, cl: int)
    : map<string, Tensor>
    requires ValidTensors(inputs)
  {
    var fitted := TransformAll(RuleFor(rules, policy, inputs, ar, cl), graph.inputs, |graph.inputs|);
    if fitted.Ok? then fitted.value else map[]
  }

  // ------------------------------------------------------------- validate

  predicate MetadataAgrees(rules: Rules, metadata: Metadata, policy: Policy, ar: int, cl: int) {
    && (metadata.family.Some? ==>
          && rules.policy(metadata.family.value).Some?
          && var declared := rules.policy(metadata.family.value).value;
             declared.name == policy.name && MayUse(rules, metadata.family.value, ar, cl, declared))
    && (metadata.ar.Some? ==> metadata.ar.value == ar) && (metadata.cl.Some? ==> metadata.cl.value == cl)
    && (metadata.contextLength.Some? ==> metadata.contextLength.value == cl)
  }

  /** The tensor is what the graph declares: its dtype, and a shape its dimensions determine. */
  predicate InputAgrees(rules: Rules, abi: Abi, value: Tensor, ar: int, cl: int) {
    value.dtype == abi.dtype && Takes(rules, abi, Some(value.grid.shape), rules.role(abi.name), ar, cl, value.grid.shape)
  }

  /** Outputs are held to their declared sizes and to the AR and CL their dimensions name. */
  predicate GoldenAgrees(rules: Rules, abi: Abi, value: Tensor, ar: int, cl: int) {
    && value.dtype == abi.dtype && |value.grid.shape| == |abi.shape|
    && forall k :: 0 <= k < |abi.shape| ==>
         && (abi.shape[k].Static? ==> value.grid.shape[k] == abi.shape[k].size)
         && (Named(rules, abi.shape[k], Ar) ==> value.grid.shape[k] == ar)
         && (Named(rules, abi.shape[k], Cl) ==> value.grid.shape[k] == cl)
  }

  predicate Declares(abis: seq<Abi>, name: string) {
    exists k :: 0 <= k < |abis| && abis[k].name == name
  }

  lemma DeclaredIsFound(abis: seq<Abi>, name: string)
    ensures FindAbi(abis, name).Some? <==> Declares(abis, name)
  {
    if FindAbi(abis, name).Some? {
      var abi := FindAbi(abis, name).value;
      var k :| 0 <= k < |abis| && abis[k] == abi;
    }
  }

  lemma InputChecksExactlyWhen(rules: Rules, abi: Abi, value: Tensor, ar: int, cl: int)
    ensures CheckInput(rules, abi, value, ar, cl).None? <==> InputAgrees(rules, abi, value, ar, cl)
  {
    ResolvesExactlyWhen(rules, abi, Some(value.grid.shape), rules.role(abi.name), ar, cl, value.grid.shape);
  }

  lemma GoldensFitExactlyWhen(rules: Rules, outputs: seq<Abi>, goldens: map<string, Tensor>, ar: int, cl: int)
    requires DistinctNames(outputs) && NoExtra(outputs, goldens)
    ensures GoldensFit(rules, outputs, goldens, ar, cl) <==>
              forall k :: 0 <= k < |outputs| && outputs[k].name in goldens ==>
                GoldenAgrees(rules, outputs[k], goldens[outputs[k].name], ar, cl)
  {
    forall k | 0 <= k < |outputs| ensures FindAbi(outputs, outputs[k].name) == Some(outputs[k]) {
      FoundIsOnly(outputs, k);
    }
    forall k | 0 <= k < |outputs| && outputs[k].name in goldens
      ensures GoldenFits(rules, outputs[k], goldens[outputs[k].name], ar, cl)
              <==> GoldenAgrees(rules, outputs[k], goldens[outputs[k].name], ar, cl)
    {
    }
    forall name | name in goldens ensures exists k :: 0 <= k < |outputs| && outputs[k].name == name {
      DeclaredIsFound(outputs, name);
    }
  }

  lemma NoExtraExactlyWhen(abis: seq<Abi>, tensors: map<string, Tensor>)
    ensures NoExtra(abis, tensors) <==> forall name | name in tensors :: Declares(abis, name)
  {
    forall name | name in tensors ensures FindAbi(abis, name).Some? <==> Declares(abis, name) {
      DeclaredIsFound(abis, name);
    }
  }

  lemma MetadataChecksExactlyWhen(rules: Rules, metadata: Metadata, family: string, policy: Policy, ar: int, cl: int)
    requires MayUse(rules, family, ar, cl, policy)
    ensures CheckMetadata(rules, metadata, policy, ar, cl).None? <==> MetadataAgrees(rules, metadata, policy, ar, cl)
  {
  }

  /**
   A provided manifest is accepted exactly when the family may run with this AR and CL and what the metadata says
   agrees, it holds every input of the graph as declared and, unless allowed, no other, and every golden is an output
   of the graph as declared.
   */
  lemma AcceptedExactlyWhen(rules: Rules, family: string, manifest: Manifest, graph: Graph, ar: int, cl: int,
                            allowExtra: bool, policy: Policy)
    requires DistinctNames(graph.outputs) && rules.policy(family) == Some(policy)
    ensures Validate(rules, family, manifest, graph, ar, cl, allowExtra).None? <==>
              && MayUse(rules, family, ar, cl, policy) && MetadataAgrees(rules, manifest.metadata, policy, ar, cl)
              && (forall k :: 0 <= k < |graph.inputs| ==>
                    graph.inputs[k].name in manifest.inputs
                    && InputAgrees(rules, graph.inputs[k], manifest.inputs[graph.inputs[k].name], ar, cl))
              && (allowExtra || forall name | name in manifest.inputs :: Declares(graph.inputs, name))
              && (forall name | name in manifest.goldens :: Declares(graph.outputs, name))
              && (forall k :: 0 <= k < |graph.outputs| && graph.outputs[k].name in manifest.goldens ==>
                    GoldenAgrees(rules, graph.outputs[k], manifest.goldens[graph.outputs[k].name], ar, cl))
  {
    NoExtraExactlyWhen(graph.inputs, manifest.inputs);
    NoExtraExactlyWhen(graph.outputs, manifest.goldens);
    if MayUse(rules, family, ar, cl, policy) {
      MetadataChecksExactlyWhen(rules, manifest.metadata, family, policy, ar, cl);
    }
    if NoExtra(graph.outputs, manifest.goldens) {
      GoldensFitExactlyWhen(rules, graph.outputs, manifest.goldens, ar, cl);
    }
    if NamesIn(graph.inputs, manifest.inputs) {
      InputsPass(rules, graph.inputs, |graph.inputs|, manifest.inputs, ar, cl);
      forall k | 0 <= k < |graph.inputs|
        ensures CheckInput(rules, graph.inputs[k], manifest.inputs[graph.inputs[k].name], ar, cl).None?
                <==> InputAgrees(rules, graph.inputs[k], manifest.inputs[graph.inputs[k].name], ar, cl)
      {
        InputChecksExactlyWhen(rules, graph.inputs[k], manifest.inputs[graph.inputs[k].name], ar, cl);
      }
    }
  }
}
