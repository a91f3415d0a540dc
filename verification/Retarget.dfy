/**
 `vector_retarget.py`: fitting one recorded vector case to a target graph, and the check every per-AR manifest has to
 pass. Whatever the first publishes should be accepted by the second.
 */
module Retarget {
  import opened Common
  import opened Tensors
  import opened CropPad

  datatype DType = DType(name: string, integral: bool, min: int, max: int)

  /** Values are numbers; an integral tensor holds whole ones. */
  datatype Tensor = Tensor(dtype: DType, grid: Array<real>)

  datatype Dim = Static(size: int) | Symbol(name: string) | Anonymous

  datatype Abi = Abi(name: string, dtype: DType, shape: seq<Dim>)

  datatype Graph = Graph(inputs: seq<Abi>, outputs: seq<Abi>)

  datatype Role = Tokens | PositionIds | RotaryPosition | AttentionMask | KvCache | SequenceFeatures | Vision | Unknown

  datatype AxisKind = Batch | Ar | Cl

  datatype Policy = Policy(name: string, retargetAllowed: bool, kvState: bool, allowedArs: Option<set<int>>)

  /** The name tables: what a tensor name or a symbolic dimension means, which families there are, which casts are safe. */
  datatype Rules = Rules(
    role: string -> Role,
    kind: string -> Option<AxisKind>,
    policy: string -> Option<Policy>,
    canCast: (DType, DType) -> bool)

  datatype Metadata = Metadata(family: Option<string>, ar: Option<int>, cl: Option<int>, contextLength: Option<int>)

  datatype Manifest = Manifest(inputs: map<string, Tensor>, goldens: map<string, Tensor>, metadata: Metadata)

  datatype Failure =
    | BadArCl | UnknownFamily | ArNotAllowed | NotRetargetable
    | RankMismatch | Unresolved | NonPositive | WrongAr
    | MissingInput | UnsafeCast | BadPositionSource | PositionNotIntegral | PositionRankZero | PositionOutOfRange
    | RotaryTooShort | AssertionFailed | CaptureFailed
    | MetadataMismatch | InputsMissing | InputsExtra | ShapeMismatch | DTypeMismatch | UnknownGolden | GoldenMismatch

  // ------------------------------------------------------------- families

  function FamilyPolicy(rules: Rules, family: string, ar: int, cl: int): Result<Policy, Failure> {
    if ar <= 0 || cl <= 0 || ar > cl then Err(BadArCl)
    else match rules.policy(family)
      case None => Err(UnknownFamily)
      case Some(policy) =>
        if policy.allowedArs.Some? && ar !in policy.allowedArs.value then Err(ArNotAllowed) else Ok(policy)
  }

  /** Every family is registered under its own canonical name. */
  ghost predicate SelfNamed(rules: Rules) {
    forall family :: rules.policy(family).Some? ==> rules.policy(rules.policy(family).value.name) == rules.policy(family)
  }

  // --------------------------------------------------------------- shapes

  function SequenceAxis(role: Role, rank: nat): (axis: Option<nat>)
    ensures axis.Some? ==> axis.value < rank
  {
    if rank == 0 then None
    else match role
      case Tokens => Some(rank - 1)
      case PositionIds => Some(rank - 1)
      case SequenceFeatures => Some(if rank >= 3 then rank - 2 else rank - 1)
      case RotaryPosition => Some(if rank >= 3 then rank - 2 else rank - 1)
      case AttentionMask => if rank >= 3 then Some(rank - 2) else None
      case _ => None
  }

  /** One axis of the target: static, symbolic, the sequence axis, or the source's batch; None when unresolved. */
  function AxisSize(rules: Rules, dims: seq<Dim>, axis: nat, source: Option<Shape>, role: Role, ar: int,
                    cl: int): Option<int>
    requires axis < |dims| && (source.Some? ==> |source.value| == |dims|)
  {
    var dim := dims[axis];
    if dim.Static? then Some(dim.size)
    else
      var kind := if dim.Symbol? then rules.kind(dim.name) else None;
      if kind == Some(Ar) then Some(ar)
      else if kind == Some(Cl) then Some(cl)
      else if kind == Some(Batch) then Some(if source.Some? then source.value[axis] else 1)
      else if SequenceAxis(role, |dims|) == Some(axis) && (role.Tokens? || role.PositionIds? || role.SequenceFeatures?)
      then Some(ar)
      else if axis == 0 && source.Some? then Some(source.value[0])
      else None
  }

  /** The size of every axis by the rule above; beyond the rank there is none. */
  function SizeRule(rules: Rules, dims: seq<Dim>, source: Option<Shape>, role: Role, ar: int,
                    cl: int): nat -> Option<int>
    requires source.Some? ==> |source.value| == |dims|
  {
    (axis: nat) => if axis < |dims| then AxisSize(rules, dims, axis, source, role, ar, cl) else None
  }

  /** The first n axes, or the first failure among them. */
  function ResolveAxes(size: nat -> Option<int>, n: nat): (r: Result<Shape, Failure>)
    ensures r.Ok? ==> |r.value| == n && forall k :: 0 <= k < n ==> r.value[k] > 0 && size(k) == Some(r.value[k])
  {
    if n == 0 then Ok([])
    else
      var before := ResolveAxes(size, n - 1);
      if before.Err? then before
      else
        var last := size(n - 1);
        if last.None? then Err(Unresolved)
        else if last.value <= 0 then Err(NonPositive)
        else Ok(before.value + [last.value])
  }

  /** Tensors that prove which AR a graph was built for. */
  predicate ProvesAr(role: Role) {
    role.Tokens? || role.PositionIds? || role.RotaryPosition? || role.SequenceFeatures?
  }

  function Resolve(rules: Rules, abi: Abi, source: Option<Shape>, role: Role, ar: int, cl: int)
    : (r: Result<Shape, Failure>)
    ensures r.Ok? ==> |r.value| == |abi.shape| && forall k :: 0 <= k < |r.value| ==> r.value[k] > 0
    ensures r.Ok? && source.Some? ==> |source.value| == |abi.shape|
  {
    if source.Some? && |source.value| != |abi.shape| then Err(RankMismatch)
    else
      var axes := ResolveAxes(SizeRule(rules, abi.shape, source, role, ar, cl), |abi.shape|);
      var at := SequenceAxis(role, |abi.shape|);
      if axes.Ok? && at.Some? && ProvesAr(role) && axes.value[at.value] != ar then Err(WrongAr) else axes
  }

  /** `_resolve_target_shape`. */
  method ResolveTargetShape(rules: Rules, abi: Abi, source: Option<Shape>, role: Role, ar: int, cl: int)
    returns (r: Result<Shape, Failure>)
    ensures r == Resolve(rules, abi, source, role, ar, cl)
  {
    if source.Some? && |source.value| != |abi.shape| { return Err(RankMismatch); }
    var sequenceAxis := SequenceAxis(role, |abi.shape|);
    var resolved := ResolveEach(SizeRule(rules, abi.shape, source, role, ar, cl), |abi.shape|);
    if resolved.Ok? && sequenceAxis.Some? && ProvesAr(role) && resolved.value[sequenceAxis.value] != ar { return Err(WrongAr); }
    r := resolved;
  }

  /** The loop over the axes. */
  method ResolveEach(size: nat -> Option<int>, rank: nat) returns (r: Result<Shape, Failure>)
    ensures r == ResolveAxes(size, rank)
  {
    var resolved: Shape := [];
    var axis := 0;
    while axis < rank
      invariant 0 <= axis <= rank && ResolveAxes(size, axis) == Ok(resolved)
    {
      var value := size(axis);
      if value.None? {
        FailureStays(size, axis + 1, rank);
        return Err(Unresolved);
      }
      if value.value <= 0 {
        FailureStays(size, axis + 1, rank);
        return Err(NonPositive);
      }
      resolved := resolved + [value.value];
      axis := axis + 1;
    }
    r := Ok(resolved);
  }

  lemma {:induction false} FailureStays(size: nat -> Option<int>, n: nat, m: nat)
    requires n <= m && ResolveAxes(size, n).Err?
    ensures ResolveAxes(size, m) == ResolveAxes(size, n)
    decreases m
  {
    if n < m { FailureStays(size, n, m - 1); }
  }

  /** Two rules that agree on every axis resolve alike. */
  lemma {:induction false} SameRuleSameShape(size: nat -> Option<int>, other: nat -> Option<int>, n: nat)
    requires forall k: nat :: k < n ==> size(k) == other(k)
    ensures ResolveAxes(size, n) == ResolveAxes(other, n)
  {
    if n > 0 { SameRuleSameShape(size, other, n - 1); }
  }

  /** An axis that resolved to some size resolves to it again when that size is the source's. */
  lemma AxisIsFixed(rules: Rules, dims: seq<Dim>, axis: nat, source: Option<Shape>, role: Role, ar: int, cl: int,
                    shape: Shape)
    requires axis < |dims| == |shape| && (source.Some? ==> |source.value| == |dims|)
    requires AxisSize(rules, dims, axis, source, role, ar, cl) == Some(shape[axis])
    ensures AxisSize(rules, dims, axis, Some(shape), role, ar, cl) == Some(shape[axis])
  {
  }

  /** Resolution is a fixed point on its own result. */
  lemma ResolutionIsFixed(rules: Rules, abi: Abi, source: Option<Shape>, role: Role, ar: int, cl: int)
    requires Resolve(rules, abi, source, role, ar, cl).Ok?
    ensures var shape := Resolve(rules, abi, source, role, ar, cl).value;
            Resolve(rules, abi, Some(shape), role, ar, cl) == Ok(shape)
  {
    var shape := Resolve(rules, abi, source, role, ar, cl).value;
    var size, again := SizeRule(rules, abi.shape, source, role, ar, cl), SizeRule(rules, abi.shape, Some(shape), role, ar, cl);
    forall k: nat | k < |abi.shape| ensures size(k) == again(k) {
      assert size(k) == Some(shape[k]);
      AxisIsFixed(rules, abi.shape, k, source, role, ar, cl, shape);
    }
    SameRuleSameShape(size, again, |abi.shape|);
  }

  /** What a resolved shape promises: declared sizes kept, AR and CL where they are named, AR where the role proves it. */
  lemma ResolvedMeans(rules: Rules, abi: Abi, source: Option<Shape>, role: Role, ar: int, cl: int, axis: nat)
    requires Resolve(rules, abi, source, role, ar, cl).Ok? && axis < |abi.shape|
    ensures var size, dim := Resolve(rules, abi, source, role, ar, cl).value[axis], abi.shape[axis];
            && size > 0
            && (dim.Static? ==> size == dim.size)
            && (dim.Symbol? && rules.kind(dim.name) == Some(Ar) ==> size == ar)
            && (dim.Symbol? && rules.kind(dim.name) == Some(Cl) ==> size == cl)
            && (SequenceAxis(role, |abi.shape|) == Some(axis) && ProvesAr(role) ==> size == ar)
            && (size == ar || size == cl || dim.Static? || (if source.Some? then size == source.value[axis] else size == 1))
  {
    assert SizeRule(rules, abi.shape, source, role, ar, cl)(axis) == Some(Resolve(rules, abi, source, role, ar, cl).value[axis]);
  }

  // ------------------------------------------------------------ one tensor

  function Reals(values: seq<int>): (r: seq<real>)
    ensures |r| == |values| && forall i :: 0 <= i < |r| ==> r[i] == values[i] as real
  {
    seq(|values|, i requires 0 <= i < |values| => values[i] as real)
  }

  /** `_contiguous_position_ids`. */
  function PositionTensor(shape: Shape, dtype: DType, start: int): (r: Result<Tensor, Failure>)
    ensures r.Ok? ==> r.value.dtype == dtype && r.value.grid.shape == shape && r.value.grid.Valid()
  {
    if !dtype.integral then Err(PositionNotIntegral)
    else if shape == [] then Err(PositionRankZero)
    else if start < dtype.min || start + shape[|shape| - 1] - 1 > dtype.max then Err(PositionOutOfRange)
    else Ok(Tensor(dtype, Array(shape, Reals(Positions(shape, start)))))
  }

  function ZeroTensor(shape: Shape, dtype: DType): (t: Tensor)
    ensures t.grid.Valid()
  {
    Tensor(dtype, Array(shape, Fill(Size(shape), 0.0)))
  }

  /** A contiguous copy: a scalar gains one axis. */
  function Contiguous(t: Tensor): Tensor {
    if t.grid.shape == [] then Tensor(t.dtype, Array([1], t.grid.data)) else t
  }

  /** One graph input: cast, then rebuilt positions or crop and pad; without a source only positions and state. */
  function Transform(rules: Rules, policy: Policy, abi: Abi, source: Option<Tensor>, ar: int, cl: int)
    : (r: Result<Tensor, Failure>)
    requires source.Some? ==> source.value.grid.Valid()
  {
    var role := rules.role(abi.name);
    var resolved := Resolve(rules, abi, if source.Some? then Some(source.value.grid.shape) else None, role, ar, cl);
    if resolved.Err? then Err(resolved.error)
    else
      var shape := resolved.value;
      if source.None? then
        if role.PositionIds? then PositionTensor(shape, abi.dtype, 0)
        else if role.KvCache? && policy.kvState then Ok(ZeroTensor(shape, abi.dtype))
        else Err(MissingInput)
      else
        var v := source.value;
        if v.dtype != abi.dtype && !rules.canCast(v.dtype, abi.dtype) then Err(UnsafeCast)
        else if role.PositionIds? then
          if v.grid.data == [] || !v.dtype.integral then Err(BadPositionSource)
          else PositionTensor(shape, abi.dtype, v.grid.data[0].Floor)
        else if role.RotaryPosition? && shape == [] then Err(AssertionFailed)
        else if role.RotaryPosition? && v.grid.shape[SequenceAxis(role, |shape|).value] < shape[SequenceAxis(role, |shape|).value]
        then Err(RotaryTooShort)
        else Ok(Contiguous(Tensor(abi.dtype, Array(shape, Cropped(v.grid.shape, shape, v.grid.data, 0.0)))))
  }

  /** The shape the graph input resolves to from this source. */
  function TargetShape(rules: Rules, abi: Abi, source: Option<Tensor>, ar: int, cl: int): Result<Shape, Failure> {
    Resolve(rules, abi, if source.Some? then Some(source.value.grid.shape) else None, rules.role(abi.name), ar, cl)
  }

  /**
   A transformed input has the graph's dtype and the resolved shape, except that a scalar that was provided has one
   axis; its shape resolves to itself again exactly when it is not such a scalar.
   */
  lemma TransformFits(rules: Rules, policy: Policy, abi: Abi, source: Option<Tensor>, ar: int, cl: int)
    requires source.Some? ==> source.value.grid.Valid()
    requires Transform(rules, policy, abi, source, ar, cl).Ok?
    ensures var t := Transform(rules, policy, abi, source, ar, cl).value;
            var target := TargetShape(rules, abi, source, ar, cl);
            && t.dtype == abi.dtype && t.grid.Valid() && target.Ok? && |target.value| == |abi.shape|
            && t.grid.shape == (if abi.shape == [] && source.Some? then [1] else target.value)
            && (Resolve(rules, abi, Some(t.grid.shape), rules.role(abi.name), ar, cl) == Ok(t.grid.shape)
                <==> abi.shape != [] || source.None?)
  {
    ResolutionIsFixed(rules, abi, if source.Some? then Some(source.value.grid.shape) else None, rules.role(abi.name), ar, cl);
  }

  // -------------------------------------------------------------- retarget

  ghost predicate ValidTensors(tensors: map<string, Tensor>) {
    forall name | name in tensors :: tensors[name].grid.Valid()
  }

  function SourceOf(inputs: map<string, Tensor>, name: string): Option<Tensor> {
    if name in inputs then Some(inputs[name]) else None
  }

  /** The first n graph inputs, each by the same rule. */
  function TransformAll(rule: Abi -> Result<Tensor, Failure>, abis: seq<Abi>, n: nat): Result<map<string, Tensor>, Failure>
    requires n <= |abis|
  {
    if n == 0 then Ok(map[])
    else
      var before := TransformAll(rule, abis, n - 1);
      if before.Err? then before
      else
        var last := rule(abis[n - 1]);
        if last.Err? then Err(last.error) else Ok(before.value[abis[n - 1].name := last.value])
  }

  /** The rule of one call: source inputs are looked up by name. */
  function RuleFor(rules: Rules, policy: Policy, inputs: map<string, Tensor>, ar: int, cl: int): Abi -> Result<Tensor, Failure>
    requires ValidTensors(inputs)
  {
    (abi: Abi) => Transform(rules, policy, abi, SourceOf(inputs, abi.name), ar, cl)
  }

  method TransformInputs(rule: Abi -> Result<Tensor, Failure>, abis: seq<Abi>)
    returns (r: Result<map<string, Tensor>, Failure>)
    ensures r == TransformAll(rule, abis, |abis|)
  {
    var transformed: map<string, Tensor> := map[];
    var i := 0;
    while i < |abis|
      invariant 0 <= i <= |abis| && TransformAll(rule, abis, i) == Ok(transformed)
    {
      var value := rule(abis[i]);
      if value.Err? {
        TransformFailureStays(rule, abis, i + 1, |abis|);
        return Err(value.error);
      }
      transformed := transformed[abis[i].name := value.value];
      i := i + 1;
    }
    r := Ok(transformed);
  }

  lemma {:induction false} TransformFailureStays(rule: Abi -> Result<Tensor, Failure>, abis: seq<Abi>, n: nat, m: nat)
    requires n <= m <= |abis| && TransformAll(rule, abis, n).Err?
    ensures TransformAll(rule, abis, m) == TransformAll(rule, abis, n)
    decreases m
  {
    if n < m { TransformFailureStays(rule, abis, n, m - 1); }
  }

  /** Storing a tensor makes it contiguous. */
  function StoredAll(tensors: map<string, Tensor>): (m: map<string, Tensor>)
    ensures m.Keys == tensors.Keys && forall name | name in tensors :: m[name] == Contiguous(tensors[name])
  {
    map name | name in tensors :: Contiguous(tensors[name])
  }

  /** ONNX Runtime on the target graph: any function, which may fail. */
  type Capture = map<string, Tensor> -> Option<map<string, Tensor>>

  /** `retarget_vector_manifest` without extra inputs. */
  method RetargetManifest(rules: Rules, family: string, source: Manifest, graph: Graph, ar: int, cl: int,
                          capture: Capture)
    returns (r: Result<Manifest, Failure>)
    requires ValidTensors(source.inputs)
    ensures r == Retargeted(rules, family, source, graph, ar, cl, capture)
  {
    var policy := FamilyPolicy(rules, family, ar, cl);
    if policy.Err? { return Err(policy.error); }
    if !policy.value.retargetAllowed { return Err(NotRetargetable); }
    var transformed := TransformInputs(RuleFor(rules, policy.value, source.inputs, ar, cl), graph.inputs);
    if transformed.Err? { return Err(transformed.error); }
    var goldens := capture(transformed.value);
    if goldens.None? { return Err(CaptureFailed); }
    r := Ok(Manifest(StoredAll(transformed.value), StoredAll(goldens.value),
                     Metadata(Some(policy.value.name), Some(ar), Some(cl), Some(cl))));
  }

  function Retargeted(rules: Rules, family: string, source: Manifest, graph: Graph, ar: int, cl: int,
                      capture: Capture): Result<Manifest, Failure>
    requires ValidTensors(source.inputs)
  {
    var policy := FamilyPolicy(rules, family, ar, cl);
    if policy.Err? then Err(policy.error)
    else if !policy.value.retargetAllowed then Err(NotRetargetable)
    else
      var transformed := TransformAll(RuleFor(rules, policy.value, source.inputs, ar, cl), graph.inputs, |graph.inputs|);
      if transformed.Err? then Err(transformed.error)
      else
        var goldens := capture(transformed.value);
        if goldens.None? then Err(CaptureFailed)
        else Ok(Manifest(StoredAll(transformed.value), StoredAll(goldens.value),
                         Metadata(Some(policy.value.name), Some(ar), Some(cl), Some(cl))))
  }

  // -------------------------------------------------------------- validate

  function CheckMetadata(rules: Rules, metadata: Metadata, policy: Policy, ar: int, cl: int): Option<Failure> {
    var declared := if metadata.family.Some? then FamilyPolicy(rules, metadata.family.value, ar, cl) else Ok(policy);
    if declared.Err? then Some(declared.error)
    else if declared.value.name != policy.name then Some(MetadataMismatch)
    else if (metadata.ar.Some? && metadata.ar.value != ar) || (metadata.cl.Some? && metadata.cl.value != cl)
            || (metadata.contextLength.Some? && metadata.contextLength.value != cl) then Some(MetadataMismatch)
    else None
  }

  function CheckInput(rules: Rules, abi: Abi, value: Tensor, ar: int, cl: int): Option<Failure> {
    var shape := Resolve(rules, abi, Some(value.grid.shape), rules.role(abi.name), ar, cl);
    if shape.Err? then Some(shape.error)
    else if value.grid.shape != shape.value then Some(ShapeMismatch)
    else if value.dtype != abi.dtype then Some(DTypeMismatch)
    else None
  }

  function CheckInputs(rules: Rules, abis: seq<Abi>, n: nat, inputs: map<string, Tensor>, ar: int,
                       cl: int): Option<Failure>
    requires n <= |abis| && forall k :: 0 <= k < |abis| ==> abis[k].name in inputs
  {
    if n == 0 then None
    else
      var before := CheckInputs(rules, abis, n - 1, inputs, ar, cl);
      if before.Some? then before else CheckInput(rules, abis[n - 1], inputs[abis[n - 1].name], ar, cl)
  }

  predicate GoldenAxisFits(rules: Rules, dim: Dim, size: nat, ar: int, cl: int) {
    match dim
    case Static(declared) => size == declared
    case Symbol(name) => (rules.kind(name) == Some(Ar) ==> size == ar) && (rules.kind(name) == Some(Cl) ==> size == cl)
    case Anonymous => true
  }

  /** A captured output that fits the graph's declared output. */
  predicate GoldenFits(rules: Rules, abi: Abi, value: Tensor, ar: int, cl: int) {
    && value.dtype == abi.dtype && |value.grid.shape| == |abi.shape|
    && forall k :: 0 <= k < |abi.shape| ==> GoldenAxisFits(rules, abi.shape[k], value.grid.shape[k], ar, cl)
  }

  function FindAbi(outputs: seq<Abi>, name: string): (abi: Option<Abi>)
    ensures abi.Some? ==> abi.value in outputs && abi.value.name == name
    ensures abi.None? ==> forall k :: 0 <= k < |outputs| ==> outputs[k].name != name
  {
    if outputs == [] then None
    else if outputs[|outputs| - 1].name == name then Some(outputs[|outputs| - 1])
    else FindAbi(outputs[..|outputs| - 1], name)
  }

  /** Every golden is a declared output and fits it. */
  predicate GoldensFit(rules: Rules, outputs: seq<Abi>, goldens: map<string, Tensor>, ar: int, cl: int) {
    forall name | name in goldens ::
      FindAbi(outputs, name).Some? && GoldenFits(rules, FindAbi(outputs, name).value, goldens[name], ar, cl)
  }

  predicate NamesIn(abis: seq<Abi>, tensors: map<string, Tensor>) {
    forall k :: 0 <= k < |abis| ==> abis[k].name in tensors
  }

  predicate NoExtra(abis: seq<Abi>, tensors: map<string, Tensor>) {
    forall name | name in tensors :: FindAbi(abis, name).Some?
  }

  /** `validate_provided_ar_manifest`: the first reason to refuse, if any. Which golden is blamed is left open. */
  function Validate(rules: Rules, family: string, manifest: Manifest, graph: Graph, ar: int, cl: int,
                    allowExtra: bool): Option<Failure> {
    var policy := FamilyPolicy(rules, family, ar, cl);
    if policy.Err? then Some(policy.error)
    else
      var metadata := CheckMetadata(rules, manifest.metadata, policy.value, ar, cl);
      if metadata.Some? then metadata
      else if !NamesIn(graph.inputs, manifest.inputs) then Some(InputsMissing)
      else if !NoExtra(graph.inputs, manifest.inputs) && !allowExtra then Some(InputsExtra)
      else
        var inputs := CheckInputs(rules, graph.inputs, |graph.inputs|, manifest.inputs, ar, cl);
        if inputs.Some? then inputs
        else if !NoExtra(graph.outputs, manifest.goldens) then Some(UnknownGolden)
        else if !GoldensFit(rules, graph.outputs, manifest.goldens, ar, cl) then Some(GoldenMismatch)
        else None
  }

  // ---------------------------------------------------------- main results

  predicate DistinctNames(abis: seq<Abi>) {
    forall i, j :: 0 <= i < j < |abis| ==> abis[i].name != abis[j].name
  }

  predicate NoScalars(abis: seq<Abi>) {
    forall k :: 0 <= k < |abis| ==> abis[k].shape != []
  }

  lemma {:induction false} TransformedIs(rule: Abi -> Result<Tensor, Failure>, abis: seq<Abi>, n: nat)
    requires n <= |abis| && DistinctNames(abis) && TransformAll(rule, abis, n).Ok?
    ensures var m := TransformAll(rule, abis, n).value;
            && (forall name :: name in m ==> exists k :: 0 <= k < n && abis[k].name == name)
            && (forall k :: 0 <= k < n ==> abis[k].name in m && rule(abis[k]) == Ok(m[abis[k].name]))
  {
    if n > 0 {
      TransformedIs(rule, abis, n - 1);
    }
  }

  lemma {:induction false} InputsPass(rules: Rules, abis: seq<Abi>, n: nat, inputs: map<string, Tensor>, ar: int,
                                      cl: int)
    requires n <= |abis| && forall k :: 0 <= k < |abis| ==> abis[k].name in inputs
    ensures CheckInputs(rules, abis, n, inputs, ar, cl).None? <==>
              forall k :: 0 <= k < n ==> CheckInput(rules, abis[k], inputs[abis[k].name], ar, cl).None?
  {
    if n > 0 { InputsPass(rules, abis, n - 1, inputs, ar, cl); }
  }

  /** An accepted manifest: exactly the graph's inputs, each with its dtype and a shape that resolves to itself. */
  lemma AcceptedMeans(rules: Rules, family: string, manifest: Manifest, graph: Graph, ar: int, cl: int)
    requires Validate(rules, family, manifest, graph, ar, cl, false).None?
    ensures forall k :: 0 <= k < |graph.inputs| ==>
              var abi := graph.inputs[k];
              && abi.name in manifest.inputs && manifest.inputs[abi.name].dtype == abi.dtype
              && Resolve(rules, abi, Some(manifest.inputs[abi.name].grid.shape), rules.role(abi.name), ar, cl)
                 == Ok(manifest.inputs[abi.name].grid.shape)
    ensures forall name | name in manifest.inputs :: exists k :: 0 <= k < |graph.inputs| && graph.inputs[k].name == name
    ensures forall name | name in manifest.goldens ::
              exists k :: 0 <= k < |graph.outputs| && graph.outputs[k].name == name
                       && GoldenFits(rules, graph.outputs[k], manifest.goldens[name], ar, cl)
  {
    InputsPass(rules, graph.inputs, |graph.inputs|, manifest.inputs, ar, cl);
    forall name | name in manifest.inputs ensures exists k :: 0 <= k < |graph.inputs| && graph.inputs[k].name == name {
      var abi := FindAbi(graph.inputs, name).value;
      assert abi in graph.inputs;
    }
    forall name | name in manifest.goldens
      ensures exists k :: 0 <= k < |graph.outputs| && graph.outputs[k].name == name
                       && GoldenFits(rules, graph.outputs[k], manifest.goldens[name], ar, cl)
    {
      var abi := FindAbi(graph.outputs, name).value;
      assert abi in graph.outputs && GoldenFits(rules, abi, manifest.goldens[name], ar, cl);
    }
  }

  /** A stored input passes exactly when the graph does not declare it a scalar. */
  lemma StoredInputPasses(rules: Rules, policy: Policy, abi: Abi, source: Option<Tensor>, ar: int, cl: int)
    requires source.Some? ==> source.value.grid.Valid()
    requires Transform(rules, policy, abi, source, ar, cl).Ok?
    ensures CheckInput(rules, abi, Contiguous(Transform(rules, policy, abi, source, ar, cl).value), ar, cl).None?
            <==> abi.shape != []
  {
    TransformFits(rules, policy, abi, source, ar, cl);
  }

  /** A stored golden still fits exactly when it is not a scalar. */
  lemma StoredGoldenFits(rules: Rules, abi: Abi, value: Tensor, ar: int, cl: int)
    requires GoldenFits(rules, abi, value, ar, cl)
    ensures GoldenFits(rules, abi, Contiguous(value), ar, cl) <==> abi.shape != []
  {
  }

  /** The capture returned every output of the graph, and each value fits what the graph declares. */
  predicate CaptureFits(rules: Rules, graph: Graph, goldens: map<string, Tensor>, ar: int, cl: int) {
    NamesIn(graph.outputs, goldens) && GoldensFit(rules, graph.outputs, goldens, ar, cl)
  }

  lemma GoldensPass(rules: Rules, graph: Graph, goldens: map<string, Tensor>, ar: int, cl: int)
    requires CaptureFits(rules, graph, goldens, ar, cl) && DistinctNames(graph.outputs)
    ensures NoExtra(graph.outputs, StoredAll(goldens))
    ensures GoldensFit(rules, graph.outputs, StoredAll(goldens), ar, cl) <==> NoScalars(graph.outputs)
  {
    var stored := StoredAll(goldens);
    forall name | name in goldens
      ensures GoldenFits(rules, FindAbi(graph.outputs, name).value, stored[name], ar, cl)
              <==> FindAbi(graph.outputs, name).value.shape != []
    {
      StoredGoldenFits(rules, FindAbi(graph.outputs, name).value, goldens[name], ar, cl);
    }
    if GoldensFit(rules, graph.outputs, stored, ar, cl) {
      forall k | 0 <= k < |graph.outputs| ensures graph.outputs[k].shape != [] {
        var name := graph.outputs[k].name;
        assert name in stored;
        FoundIsOnly(graph.outputs, k);
      }
    }
    if NoScalars(graph.outputs) {
      forall name | name in stored ensures FindAbi(graph.outputs, name).value.shape != [] {
        var abi := FindAbi(graph.outputs, name).value;
        assert abi in graph.outputs;
      }
    }
  }

  lemma FoundIsOnly(abis: seq<Abi>, k: nat)
    requires k < |abis| && DistinctNames(abis)
    ensures FindAbi(abis, abis[k].name) == Some(abis[k])
  {
    var found := FindAbi(abis, abis[k].name);
    assert found.Some?;
    var j :| 0 <= j < |abis| && abis[j] == found.value;
    if j != k { assert abis[j].name == abis[k].name; }
  }

  lemma PublishedInputsPass(rules: Rules, policy: Policy, graph: Graph, inputs: map<string, Tensor>, ar: int, cl: int)
    requires ValidTensors(inputs) && DistinctNames(graph.inputs)
    requires TransformAll(RuleFor(rules, policy, inputs, ar, cl), graph.inputs, |graph.inputs|).Ok?
    ensures var stored := StoredAll(TransformAll(RuleFor(rules, policy, inputs, ar, cl), graph.inputs, |graph.inputs|).value);
            && NamesIn(graph.inputs, stored) && NoExtra(graph.inputs, stored)
            && (CheckInputs(rules, graph.inputs, |graph.inputs|, stored, ar, cl).None? <==> NoScalars(graph.inputs))
  {
    var n, rule := |graph.inputs|, RuleFor(rules, policy, inputs, ar, cl);
    var m := TransformAll(rule, graph.inputs, n).value;
    var stored := StoredAll(m);
    TransformedIs(rule, graph.inputs, n);
    forall name | name in stored ensures FindAbi(graph.inputs, name).Some? {
      var k :| 0 <= k < n && graph.inputs[k].name == name;
    }
    InputsPass(rules, graph.inputs, n, stored, ar, cl);
    forall k | 0 <= k < n
      ensures CheckInput(rules, graph.inputs[k], stored[graph.inputs[k].name], ar, cl).None? <==> graph.inputs[k].shape != []
    {
      assert rule(graph.inputs[k]) == Ok(m[graph.inputs[k].name]);
      StoredInputPasses(rules, policy, graph.inputs[k], SourceOf(inputs, graph.inputs[k].name), ar, cl);
    }
  }

  lemma MetadataPasses(rules: Rules, family: string, ar: int, cl: int, policy: Policy)
    requires SelfNamed(rules) && FamilyPolicy(rules, family, ar, cl) == Ok(policy)
    ensures CheckMetadata(rules, Metadata(Some(policy.name), Some(ar), Some(cl), Some(cl)), policy, ar, cl).None?
  {
    assert rules.policy(policy.name) == Some(policy);
  }

  lemma WhatIsLeftToCheck(rules: Rules, family: string, manifest: Manifest, graph: Graph, ar: int, cl: int,
                          policy: Policy)
    requires FamilyPolicy(rules, family, ar, cl) == Ok(policy)
    requires CheckMetadata(rules, manifest.metadata, policy, ar, cl).None?
    requires NamesIn(graph.inputs, manifest.inputs) && NoExtra(graph.inputs, manifest.inputs)
    requires NoExtra(graph.outputs, manifest.goldens)
    ensures Validate(rules, family, manifest, graph, ar, cl, false).None? <==>
              CheckInputs(rules, graph.inputs, |graph.inputs|, manifest.inputs, ar, cl).None?
              && GoldensFit(rules, graph.outputs, manifest.goldens, ar, cl)
  {
  }

  /**
   What retargeting publishes without extra inputs is accepted for the same graph, family, AR and CL exactly when the
   graph declares no scalar input or output: a scalar is stored with one axis, and the check compares ranks.
   */
  lemma PublishedIsAccepted(rules: Rules, family: string, source: Manifest, graph: Graph, ar: int, cl: int,
                            capture: Capture)
    requires SelfNamed(rules) && ValidTensors(source.inputs)
    requires DistinctNames(graph.inputs) && DistinctNames(graph.outputs)
    requires Retargeted(rules, family, source, graph, ar, cl, capture).Ok?
    requires var policy := FamilyPolicy(rules, family, ar, cl).value;
             var inputs := TransformAll(RuleFor(rules, policy, source.inputs, ar, cl), graph.inputs, |graph.inputs|).value;
             CaptureFits(rules, graph, capture(inputs).value, ar, cl)
    ensures var published := Retargeted(rules, family, source, graph, ar, cl, capture).value;
            Validate(rules, family, published, graph, ar, cl, false).None?
            <==> NoScalars(graph.inputs) && NoScalars(graph.outputs)
  {
    var policy := FamilyPolicy(rules, family, ar, cl).value;
    var transformed := TransformAll(RuleFor(rules, policy, source.inputs, ar, cl), graph.inputs, |graph.inputs|).value;
    PublishedInputsPass(rules, policy, graph, source.inputs, ar, cl);
    GoldensPass(rules, graph, capture(transformed).value, ar, cl);
    MetadataPasses(rules, family, ar, cl, policy);
    WhatIsLeftToCheck(rules, family, Retargeted(rules, family, source, graph, ar, cl, capture).value, graph, ar, cl, policy);
  }

  /** What a transformed input holds: the source's entry where there is one, zero elsewhere; a scalar keeps its value. */
  lemma TransformedAt(rules: Rules, policy: Policy, abi: Abi, source: Tensor, ar: int, cl: int, index: seq<nat>)
    requires source.grid.Valid() && Transform(rules, policy, abi, Some(source), ar, cl).Ok?
    requires !rules.role(abi.name).PositionIds?
    requires InBounds(TargetShape(rules, abi, Some(source), ar, cl).value, index)
    ensures var t := Transform(rules, policy, abi, Some(source), ar, cl).value;
            var target := TargetShape(rules, abi, Some(source), ar, cl).value;
            && Offset(target, index) < |t.grid.data|
            && t.grid.data[Offset(target, index)]
               == if InBounds(source.grid.shape, index) then At(source.grid.shape, source.grid.data, index) else 0.0
  {
    var target := TargetShape(rules, abi, Some(source), ar, cl).value;
    var data := Cropped(source.grid.shape, target, source.grid.data, 0.0);
    CroppedAt(source.grid.shape, target, source.grid.data, 0.0, index);
    AtIsOffset(target, data, index);
  }

  /** Rebuilt positions count up from the source's first one along the last axis, within the range of the dtype. */
  lemma TransformedPositions(rules: Rules, policy: Policy, abi: Abi, source: Option<Tensor>, ar: int, cl: int,
                             index: seq<nat>)
    requires source.Some? ==> source.value.grid.Valid()
    requires Transform(rules, policy, abi, source, ar, cl).Ok? && rules.role(abi.name).PositionIds?
    requires InBounds(Transform(rules, policy, abi, source, ar, cl).value.grid.shape, index)
    ensures var t := Transform(rules, policy, abi, source, ar, cl).value;
            var start := if source.Some? then source.value.grid.data[0].Floor else 0;
            && t.grid.shape != [] && Offset(t.grid.shape, index) < |t.grid.data|
            && t.grid.data[Offset(t.grid.shape, index)] == (start + index[|index| - 1]) as real
            && abi.dtype.min <= start && start + index[|index| - 1] <= abi.dtype.max
  {
    var t := Transform(rules, policy, abi, source, ar, cl).value;
    var start := if source.Some? then source.value.grid.data[0].Floor else 0;
    assert PositionTensor(t.grid.shape, abi.dtype, start) == Ok(t);
    PositionTensorAt(t.grid.shape, abi.dtype, start, index);
  }

  lemma PositionTensorAt(shape: Shape, dtype: DType, start: int, index: seq<nat>)
    requires PositionTensor(shape, dtype, start).Ok? && InBounds(shape, index)
    ensures var data := PositionTensor(shape, dtype, start).value.grid.data;
            && shape != [] && Offset(shape, index) < |data|
            && data[Offset(shape, index)] == (start + index[|index| - 1]) as real
            && dtype.min <= start && start + index[|index| - 1] <= dtype.max
  {
    PositionAt(shape, start, index);
    AtIsOffset(shape, Positions(shape, start), index);
  }

  /** The entry of a fitted input at a multi-index of the target shape. */
  function Fitted(role: Role, source: Option<Tensor>, index: seq<nat>): real
    requires source.Some? ==> source.value.grid.Valid() && (role.PositionIds? ==> source.value.grid.data != [])
    requires role.PositionIds? ==> index != []
  {
    if role.PositionIds? then
      ((if source.Some? then source.value.grid.data[0].Floor else 0) + index[|index| - 1]) as real
    else if source.Some? && InBounds(source.value.grid.shape, index) then
      At(source.value.grid.shape, source.value.grid.data, index)
    else 0.0
  }

  /**
   What a published input is: the graph's dtype, the shape its declaration resolves to (a scalar stored with one
   axis), and in row-major order the fitted entries.
   */
  ghost predicate InputMeans(rules: Rules, abi: Abi, source: Option<Tensor>, t: Tensor, ar: int, cl: int) {
    var target := TargetShape(rules, abi, source, ar, cl);
    var role := rules.role(abi.name);
    && target.Ok? && t.dtype == abi.dtype && t.grid.Valid()
    && t.grid.shape == (if target.value == [] then [1] else target.value)
    && (source.Some? ==> source.value.grid.Valid() && (role.PositionIds? ==> source.value.grid.data != []))
    && (role.PositionIds? ==> target.value != [])
    && forall index | InBounds(target.value, index) :: EntryMeans(target.value, role, source, t.grid.data, index)
  }

  predicate EntryMeans(target: Shape, role: Role, source: Option<Tensor>, data: seq<real>, index: seq<nat>)
    requires |index| == |target| && (role.PositionIds? ==> target != [])
    requires source.Some? ==> source.value.grid.Valid() && (role.PositionIds? ==> source.value.grid.data != [])
  {
    Offset(target, index) < |data| && data[Offset(target, index)] == Fitted(role, source, index)
  }

  lemma ZerosAt(shape: Shape, index: seq<nat>)
    requires InBounds(shape, index)
    ensures Offset(shape, index) < Size(shape) && Fill(Size(shape), 0.0)[Offset(shape, index)] == 0.0
  {
    AtFill(shape, 0.0, index);
    AtIsOffset(shape, Fill(Size(shape), 0.0), index);
  }

  lemma TransformMeans(rules: Rules, policy: Policy, abi: Abi, source: Option<Tensor>, ar: int, cl: int)
    requires source.Some? ==> source.value.grid.Valid()
    requires Transform(rules, policy, abi, source, ar, cl).Ok?
    ensures InputMeans(rules, abi, source, Contiguous(Transform(rules, policy, abi, source, ar, cl).value), ar, cl)
  {
    var t := Transform(rules, policy, abi, source, ar, cl).value;
    var target, role := TargetShape(rules, abi, source, ar, cl).value, rules.role(abi.name);
    TransformFits(rules, policy, abi, source, ar, cl);
    forall index | InBounds(target, index)
      ensures EntryMeans(target, role, source, Contiguous(t).grid.data, index)
    {
      if role.PositionIds? {
        TransformedPositions(rules, policy, abi, source, ar, cl, index);
      } else if source.Some? {
        TransformedAt(rules, policy, abi, source.value, ar, cl, index);
      } else {
        ZerosAt(target, index);
      }
    }
  }

  /** The published goldens are what the target graph answered on inputs that are stored as the published ones. */
  ghost predicate GoldensCaptured(capture: Capture, published: Manifest) {
    exists inputs: map<string, Tensor> ::
      capture(inputs).Some? && StoredAll(inputs) == published.inputs && StoredAll(capture(inputs).value) == published.goldens
  }

  /**
   What retargeting publishes: the canonical family with this AR and CL, exactly the graph's inputs, each fitted from
   the source input of its name, and goldens captured from the target graph, never copied from the source.
   */
  lemma PublishedMeans(rules: Rules, family: string, source: Manifest, graph: Graph, ar: int, cl: int, capture: Capture)
    requires ValidTensors(source.inputs) && DistinctNames(graph.inputs)
    requires Retargeted(rules, family, source, graph, ar, cl, capture).Ok?
    ensures var published := Retargeted(rules, family, source, graph, ar, cl, capture).value;
            && 0 < ar <= cl && rules.policy(family).Some? && rules.policy(family).value.retargetAllowed
            && published.metadata == Metadata(Some(rules.policy(family).value.name), Some(ar), Some(cl), Some(cl))
            && (forall k :: 0 <= k < |graph.inputs| ==>
                  var abi := graph.inputs[k];
                  abi.name in published.inputs
                  && InputMeans(rules, abi, if abi.name in source.inputs then Some(source.inputs[abi.name]) else None,
                                published.inputs[abi.name], ar, cl))
            && (forall name | name in published.inputs :: exists k :: 0 <= k < |graph.inputs| && graph.inputs[k].name == name)
            && GoldensCaptured(capture, published)
  {
    var policy := FamilyPolicy(rules, family, ar, cl).value;
    var n, rule := |graph.inputs|, RuleFor(rules, policy, source.inputs, ar, cl);
    var transformed := TransformAll(rule, graph.inputs, n).value;
    TransformedIs(rule, graph.inputs, n);
    forall k | 0 <= k < n
      ensures var abi := graph.inputs[k];
              InputMeans(rules, abi, SourceOf(source.inputs, abi.name), StoredAll(transformed)[abi.name], ar, cl)
    {
      var abi := graph.inputs[k];
      assert rule(abi) == Ok(transformed[abi.name]);
      TransformMeans(rules, policy, abi, SourceOf(source.inputs, abi.name), ar, cl);
    }
    assert capture(transformed).Some?;
  }

  // --------------------------------------------------------------- witness

  const FLOAT := DType("float32", false, 0, 0)
  const LOSS := Tensor(FLOAT, Array([], [0.0]))

  /** One family, known under its own name, that may be retargeted. */
  function OneFamily(): Rules {
    Rules(name => Unknown, name => None, family => if family == "dense" then Some(Policy("dense", true, false, None)) else None,
          (source, target) => true)
  }

  /**
   A graph with a scalar loss: everything about the call is in order, its capture fits what the graph declares, and yet
   what it publishes is refused.
   */
  lemma ScalarOutputIsRefused() returns (rules: Rules, source: Manifest, graph: Graph, capture: Capture)
    ensures SelfNamed(rules) && ValidTensors(source.inputs)
    ensures DistinctNames(graph.inputs) && DistinctNames(graph.outputs) && !NoScalars(graph.outputs)
    ensures Retargeted(rules, "dense", source, graph, 1, 1, capture).Ok?
    ensures capture(map[]).Some? && CaptureFits(rules, graph, capture(map[]).value, 1, 1)
    ensures Validate(rules, "dense", Retargeted(rules, "dense", source, graph, 1, 1, capture).value, graph, 1, 1, false).Some?
  {
    rules := OneFamily();
    source := Manifest(map[], map[], Metadata(None, None, None, None));
    var loss := Abi("loss", FLOAT, []);
    graph := Graph([], [loss]);
    capture := inputs => Some(map["loss" := LOSS]);
    assert FindAbi(graph.outputs, "loss") == Some(loss);
    assert GoldenFits(rules, loss, LOSS, 1, 1);
    PublishedIsAccepted(rules, "dense", source, graph, 1, 1, capture);
    assert graph.outputs[0].shape == [];
  }
}
