/** `QualityDiagnoser`: which taps diverge first, and whether an error is local or inherited. */
module Diagnosis {
  import opened Common
  import opened Sqnr

  type Outputs = map<string, map<string, Tensor>>

  type Comparison = (Tensor, Tensor) -> Result<Quality, Failure>

  datatype Tap = Tap(sliceId: string, tensor: string, reference: Tensor)

  datatype Label =
    | NotObserved | ChainOnly | LocalOnly
    | ExactBoth | PropagatedOnly | LocalNotInChain | LocalPlusPropagated | ChainReduced | ChainUnchanged

  datatype Observation = Observation(
    tap: Tap, teacher: Option<Quality>, chain: Option<Quality>, verdict: Label, delta: Option<real>)

  datatype Fault =
    | MissingTeacher(sliceId: string, tensor: string)
    | MissingChain(sliceId: string, tensor: string)
    | Incomparable(sliceId: string, tensor: string, fromTeacher: bool, why: Failure)

  datatype Report = Report(
    observations: seq<Observation>, firstTeacher: Option<(string, string)>, firstChain: Option<(string, string)>)

  /** `_attribution`. */
  function Attribution(teacher: Option<Quality>, chain: Option<Quality>): (Label, Option<real>) {
    if teacher.None? && chain.None? then (NotObserved, None)
    else if teacher.None? then (ChainOnly, None)
    else if chain.None? then (LocalOnly, None)
    else
      var delta := chain.value.noiseEnergy - teacher.value.noiseEnergy;
      var teacherExact, chainExact := teacher.value.noiseEnergy == 0.0, chain.value.noiseEnergy == 0.0;
      var verdict :=
        if teacherExact && chainExact then ExactBoth
        else if teacherExact then PropagatedOnly
        else if chainExact then LocalNotInChain
        else if delta > 0.0 then LocalPlusPropagated
        else if delta < 0.0 then ChainReduced
        else ChainUnchanged;
      (verdict, Some(delta))
  }

  function Lookup(outputs: Option<Outputs>, tap: Tap): Option<Tensor> {
    if outputs.Some? && tap.sliceId in outputs.value && tap.tensor in outputs.value[tap.sliceId]
    then Some(outputs.value[tap.sliceId][tap.tensor]) else None
  }

  function CompareIf(compare: Comparison, tap: Tap, actual: Option<Tensor>): Result<Option<Quality>, Failure> {
    if actual.None? then Ok(None)
    else match compare(tap.reference, actual.value)
      case Ok(q) => Ok(Some(q))
      case Err(e) => Err(e)
  }

  /** One tap: both outputs must be there if their run was given, and both must be comparable. */
  function Observe(compare: Comparison, tap: Tap, teacher: Option<Outputs>,
                   chain: Option<Outputs>): Result<Observation, Fault> {
    if teacher.Some? && Lookup(teacher, tap).None? then Err(MissingTeacher(tap.sliceId, tap.tensor))
    else if chain.Some? && Lookup(chain, tap).None? then Err(MissingChain(tap.sliceId, tap.tensor))
    else
      var local := CompareIf(compare, tap, Lookup(teacher, tap));
      if local.Err? then Err(Incomparable(tap.sliceId, tap.tensor, true, local.error))
      else
        var chained := CompareIf(compare, tap, Lookup(chain, tap));
        if chained.Err? then Err(Incomparable(tap.sliceId, tap.tensor, false, chained.error))
        else
          var (verdict, delta) := Attribution(local.value, chained.value);
          Ok(Observation(tap, local.value, chained.value, verdict, delta))
  }

  type Observer = Tap -> Result<Observation, Fault>

  function Observing(compare: Comparison, teacher: Option<Outputs>, chain: Option<Outputs>): Observer {
    (tap: Tap) => Observe(compare, tap, teacher, chain)
  }

  /** Tap after tap, up to the first fault. */
  function ObserveAll(observe: Observer, taps: seq<Tap>): Result<seq<Observation>, Fault> {
    if taps == [] then Ok([])
    else
      var before := ObserveAll(observe, taps[..|taps| - 1]);
      if before.Err? then before
      else
        var last := observe(taps[|taps| - 1]);
        if last.Err? then Err(last.error) else Ok(before.value + [last.value])
  }

  predicate Noisy(q: Option<Quality>) {
    q.Some? && q.value.noiseEnergy > 0.0
  }

  function Name(o: Observation): (string, string) {
    (o.tap.sliceId, o.tap.tensor)
  }

  function FirstNoisy(observations: seq<Observation>, ofTeacher: bool): Option<(string, string)> {
    if observations == [] then None
    else
      var before, last := FirstNoisy(observations[..|observations| - 1], ofTeacher), observations[|observations| - 1];
      if before.Some? then before
      else if Noisy(if ofTeacher then last.teacher else last.chain) then Some(Name(last))
      else None
  }

  function ReportOf(observations: seq<Observation>): Report {
    Report(observations, FirstNoisy(observations, true), FirstNoisy(observations, false))
  }

  /** The references of one slice, in order. */
  function SliceTaps(sliceId: string, tensors: seq<(string, Tensor)>): seq<Tap> {
    if tensors == [] then []
    else SliceTaps(sliceId, tensors[..|tensors| - 1]) + [Tap(sliceId, tensors[|tensors| - 1].0, tensors[|tensors| - 1].1)]
  }

  function Taps(references: seq<(string, seq<(string, Tensor)>)>): seq<Tap> {
    if references == [] then []
    else
      var last := references[|references| - 1];
      Taps(references[..|references| - 1]) + SliceTaps(last.0, last.1)
  }

  lemma {:induction false} FaultStays(observe: Observer, taps: seq<Tap>, more: seq<Tap>)
    requires ObserveAll(observe, taps).Err?
    ensures ObserveAll(observe, taps + more) == ObserveAll(observe, taps)
  {
    if more == [] {
      assert taps + more == taps;
    } else {
      FaultStays(observe, taps, more[..|more| - 1]);
      assert (taps + more)[..|taps + more| - 1] == taps + more[..|more| - 1];
    }
  }

  lemma TapsGrow(references: seq<(string, seq<(string, Tensor)>)>, i: nat)
    requires i < |references|
    ensures Taps(references[..i + 1]) == Taps(references[..i]) + SliceTaps(references[i].0, references[i].1)
  {
    assert references[..i + 1][..i] == references[..i];
  }

  lemma {:induction false} TapsPrefix(references: seq<(string, seq<(string, Tensor)>)>, i: nat)
    requires i <= |references|
    ensures Taps(references[..i]) <= Taps(references)
    decreases |references| - i
  {
    if i < |references| {
      TapsGrow(references, i);
      TapsPrefix(references, i + 1);
    } else {
      assert references[..i] == references;
    }
  }

  lemma {:induction false} SliceTapsPrefix(sliceId: string, tensors: seq<(string, Tensor)>, j: nat)
    requires j <= |tensors|
    ensures SliceTaps(sliceId, tensors[..j]) <= SliceTaps(sliceId, tensors)
    decreases |tensors| - j
  {
    if j < |tensors| {
      assert tensors[..j + 1][..j] == tensors[..j];
      SliceTapsPrefix(sliceId, tensors, j + 1);
    } else {
      assert tensors[..j] == tensors;
    }
  }

  /** Going on to the next tap, or stopping at its fault. */
  lemma NextTap(observe: Observer, taps: seq<Tap>, tap: Tap, all: seq<Tap>)
    requires ObserveAll(observe, taps).Ok? && taps + [tap] <= all
    ensures var o := observe(tap);
            var before := ObserveAll(observe, taps).value;
            && (o.Ok? ==> ObserveAll(observe, taps + [tap]) == Ok(before + [o.value]))
            && (o.Ok? ==> ReportOf(before + [o.value]) == Extended(ReportOf(before), o.value))
            && (o.Err? ==> ObserveAll(observe, all) == Err(o.error))
  {
    assert (taps + [tap])[..|taps|] == taps;
    var o := observe(tap);
    var before := ObserveAll(observe, taps).value;
    if o.Err? {
      FaultStays(observe, taps + [tap], all[|taps| + 1..]);
      assert all == taps + [tap] + all[|taps| + 1..];
    } else {
      assert (before + [o.value])[..|before|] == before;
    }
  }

  /** What one round of the loop does to the report. */
  function Extended(r: Report, o: Observation): Report {
    Report(r.observations + [o],
           if r.firstTeacher.None? && Noisy(o.teacher) then Some(Name(o)) else r.firstTeacher,
           if r.firstChain.None? && Noisy(o.chain) then Some(Name(o)) else r.firstChain)
  }

  /** The report so far is the report on the taps so far. */
  predicate UpTo(report: Report, observe: Observer, taps: seq<Tap>) {
    ObserveAll(observe, taps) == Ok(report.observations) && report == ReportOf(report.observations)
  }

  /** `diagnose_slices`, the loop over one slice's tensors. */
  method DiagnoseSlice(observe: Observer, sliceId: string, tensors: seq<(string, Tensor)>, before: Report,
                       ghost seen: seq<Tap>, ghost all: seq<Tap>)
    returns (r: Result<Report, Fault>)
    requires UpTo(before, observe, seen) && seen + SliceTaps(sliceId, tensors) <= all
    ensures r.Ok? ==> UpTo(r.value, observe, seen + SliceTaps(sliceId, tensors))
    ensures r.Err? ==> ObserveAll(observe, all) == Err(r.error)
  {
    var report := before;
    var j := 0;
    ghost var done := seen;
    assert seen + SliceTaps(sliceId, tensors[..0]) == seen;
    while j < |tensors|
      invariant 0 <= j <= |tensors| && done == seen + SliceTaps(sliceId, tensors[..j])
      invariant UpTo(report, observe, done)
    {
      var tap := Tap(sliceId, tensors[j].0, tensors[j].1);
      DoneStep(seen, sliceId, tensors, j, all);
      StepUpTo(report, observe, done, tap, all);
      var o := observe(tap);
      if o.Err? { return Err(o.error); }
      report := Extend(report, o.value);
      done := done + [tap];
      j := j + 1;
    }
    assert tensors[..j] == tensors;
    r := Ok(report);
  }

  lemma DoneStep(seen: seq<Tap>, sliceId: string, tensors: seq<(string, Tensor)>, j: nat, all: seq<Tap>)
    requires j < |tensors| && seen + SliceTaps(sliceId, tensors) <= all
    ensures var done := seen + SliceTaps(sliceId, tensors[..j]) + [Tap(sliceId, tensors[j].0, tensors[j].1)];
            done == seen + SliceTaps(sliceId, tensors[..j + 1]) && done <= all
  {
    SliceTapsStep(sliceId, tensors, j);
  }

  method Extend(before: Report, o: Observation) returns (report: Report)
    ensures report == Extended(before, o)
  {
    var firstTeacher, firstChain := before.firstTeacher, before.firstChain;
    if firstTeacher.None? && Noisy(o.teacher) { firstTeacher := Some(Name(o)); }
    if firstChain.None? && Noisy(o.chain) { firstChain := Some(Name(o)); }
    report := Report(before.observations + [o], firstTeacher, firstChain);
  }

  lemma StepUpTo(report: Report, observe: Observer, taps: seq<Tap>, tap: Tap, all: seq<Tap>)
    requires UpTo(report, observe, taps) && taps + [tap] <= all
    ensures match observe(tap)
            case Ok(o) => UpTo(Extended(report, o), observe, taps + [tap])
            case Err(fault) => ObserveAll(observe, all) == Err(fault)
  {
    NextTap(observe, taps, tap, all);
  }

  lemma SliceTapsStep(sliceId: string, tensors: seq<(string, Tensor)>, j: nat)
    requires j < |tensors|
    ensures SliceTaps(sliceId, tensors[..j + 1])
            == SliceTaps(sliceId, tensors[..j]) + [Tap(sliceId, tensors[j].0, tensors[j].1)] <= SliceTaps(sliceId, tensors)
  {
    assert tensors[..j + 1][..j] == tensors[..j];
    SliceTapsPrefix(sliceId, tensors, j + 1);
  }

  /** `diagnose_slices`. */
  method DiagnoseSlices(compare: Comparison, references: seq<(string, seq<(string, Tensor)>)>,
                        teacher: Option<Outputs>, chain: Option<Outputs>) returns (r: Result<Report, Fault>)
    ensures match ObserveAll(Observing(compare, teacher, chain), Taps(references))
            case Ok(observations) => r == Ok(ReportOf(observations))
            case Err(fault) => r == Err(fault)
  {
    r := DiagnoseAll(Observing(compare, teacher, chain), references);
  }

  method DiagnoseAll(observe: Observer, references: seq<(string, seq<(string, Tensor)>)>)
    returns (r: Result<Report, Fault>)
    ensures match ObserveAll(observe, Taps(references))
            case Ok(observations) => r == Ok(ReportOf(observations))
            case Err(fault) => r == Err(fault)
  {
    var report := Report([], None, None);
    var i := 0;
    while i < |references|
      invariant 0 <= i <= |references| && UpTo(report, observe, Taps(references[..i]))
    {
      TapsGrow(references, i);
      TapsPrefix(references, i + 1);
      var next := DiagnoseSlice(observe, references[i].0, references[i].1, report, Taps(references[..i]), Taps(references));
      if next.Err? { return Err(next.error); }
      report := next.value;
      i := i + 1;
    }
    assert references[..i] == references;
    r := Ok(report);
  }

  // ---------------------------------------------------------- main results

  /** The comparison of one diagnoser. */
  function Comparing(floor: real, sqrt: real -> real): Comparison
    requires IsRoot(sqrt)
  {
    (reference: Tensor, actual: Tensor) =>
      if reference.Valid() && actual.Valid() then Compare(reference, actual, floor, sqrt) else Err(ShapeMismatch)
  }

  /** A comparison reports noise exactly when the two tensors differ. */
  ghost predicate NoiseMeansDifferent(compare: Comparison) {
    forall reference: Tensor, actual: Tensor ::
      compare(reference, actual).Ok? ==>
        compare(reference, actual).value.noiseEnergy >= 0.0
        && (compare(reference, actual).value.noiseEnergy > 0.0 <==> reference.data != actual.data)
  }

  lemma ComparingFindsDifferences(floor: real, sqrt: real -> real)
    requires IsRoot(sqrt)
    ensures NoiseMeansDifferent(Comparing(floor, sqrt))
  {
    forall reference: Tensor, actual: Tensor | Comparing(floor, sqrt)(reference, actual).Ok?
      ensures Comparing(floor, sqrt)(reference, actual).value.noiseEnergy >= 0.0
      ensures Comparing(floor, sqrt)(reference, actual).value.noiseEnergy > 0.0 <==> reference.data != actual.data
    {
      NoNoiseMeansEqual(reference.data, actual.data);
    }
  }

  /** The run was given and has recorded an output at this tap. */
  predicate Recorded(tap: Tap, outputs: Option<Outputs>) {
    outputs.Some? && tap.sliceId in outputs.value && tap.tensor in outputs.value[tap.sliceId]
  }

  /** A tap whose recorded output is there and is not the reference. */
  predicate Diverges(tap: Tap, outputs: Option<Outputs>) {
    Recorded(tap, outputs) && outputs.value[tap.sliceId][tap.tensor].data != tap.reference.data
  }

  /** If the run was given, it recorded this tap, and what it recorded can be compared with the reference. */
  predicate CanCompare(tap: Tap, outputs: Option<Outputs>, floor: real) {
    outputs.Some? ==>
      && Recorded(tap, outputs)
      && var actual := outputs.value[tap.sliceId][tap.tensor];
         tap.reference.Valid() && actual.Valid() && Comparable(tap.reference, actual, floor)
  }

  lemma ObservesExactlyWhen(floor: real, sqrt: real -> real, tap: Tap, teacher: Option<Outputs>, chain: Option<Outputs>)
    requires IsRoot(sqrt)
    ensures Observe(Comparing(floor, sqrt), tap, teacher, chain).Ok? <==>
              CanCompare(tap, teacher, floor) && CanCompare(tap, chain, floor)
  {
    if Recorded(tap, teacher) && tap.reference.Valid() && teacher.value[tap.sliceId][tap.tensor].Valid() {
      ComparesExactlyWhen(tap.reference, teacher.value[tap.sliceId][tap.tensor], floor, sqrt);
    }
    if Recorded(tap, chain) && tap.reference.Valid() && chain.value[tap.sliceId][tap.tensor].Valid() {
      ComparesExactlyWhen(tap.reference, chain.value[tap.sliceId][tap.tensor], floor, sqrt);
    }
  }

  lemma {:induction false} AllObserved(observe: Observer, taps: seq<Tap>)
    ensures ObserveAll(observe, taps).Ok? <==> forall k :: 0 <= k < |taps| ==> observe(taps[k]).Ok?
  {
    if taps != [] {
      var n := |taps| - 1;
      AllObserved(observe, taps[..n]);
      assert taps == taps[..n] + [taps[n]];
    }
  }

  /** There is a report exactly when every run that was given recorded a comparable output at every tap. */
  lemma ReportExistsExactlyWhen(floor: real, sqrt: real -> real, taps: seq<Tap>, teacher: Option<Outputs>,
                                chain: Option<Outputs>)
    requires IsRoot(sqrt)
    ensures ObserveAll(Observing(Comparing(floor, sqrt), teacher, chain), taps).Ok? <==>
              forall k :: 0 <= k < |taps| ==> CanCompare(taps[k], teacher, floor) && CanCompare(taps[k], chain, floor)
  {
    var observe := Observing(Comparing(floor, sqrt), teacher, chain);
    AllObserved(observe, taps);
    forall k | 0 <= k < |taps|
      ensures observe(taps[k]).Ok? <==> CanCompare(taps[k], teacher, floor) && CanCompare(taps[k], chain, floor)
    {
      ObservesExactlyWhen(floor, sqrt, taps[k], teacher, chain);
    }
  }

  /** One observation per tap, in order. */
  lemma {:induction false} ObservationsFollowTaps(observe: Observer, taps: seq<Tap>, k: nat)
    requires ObserveAll(observe, taps).Ok? && k < |taps|
    ensures var observations := ObserveAll(observe, taps).value;
            |observations| == |taps| && observe(taps[k]) == Ok(observations[k])
    decreases |taps|
  {
    if k < |taps| - 1 {
      ObservationsFollowTaps(observe, taps[..|taps| - 1], k);
    } else if k > 0 {
      ObservationsFollowTaps(observe, taps[..|taps| - 1], k - 1);
    } else {
      assert taps[..0] == [];
    }
  }

  /** The position of the first diverging tap, or the number of taps. */
  function FirstDiverging(taps: seq<Tap>, outputs: Option<Outputs>): (k: nat)
    ensures k <= |taps| && (k < |taps| ==> Diverges(taps[k], outputs))
    ensures forall i :: 0 <= i < k ==> !Diverges(taps[i], outputs)
  {
    if taps == [] then 0
    else
      var k := FirstDiverging(taps[..|taps| - 1], outputs);
      if k < |taps| - 1 then k
      else if Diverges(taps[|taps| - 1], outputs) then |taps| - 1
      else |taps|
  }

  lemma NoisyMeansDiverges(compare: Comparison, tap: Tap, teacher: Option<Outputs>, chain: Option<Outputs>)
    requires NoiseMeansDifferent(compare) && Observe(compare, tap, teacher, chain).Ok?
    ensures var o := Observe(compare, tap, teacher, chain).value;
            && o.tap == tap && (Noisy(o.teacher) <==> Diverges(tap, teacher)) && (Noisy(o.chain) <==> Diverges(tap, chain))
  {
  }

  /**
   The reported first error of either run is the first tap, in the order of the references, whose recorded output
   is not the reference; there is none exactly when every recorded output is the reference.
   */
  lemma {:induction false} FirstErrorIsFirstDivergence(compare: Comparison, taps: seq<Tap>, teacher: Option<Outputs>,
                                                       chain: Option<Outputs>, ofTeacher: bool)
    requires NoiseMeansDifferent(compare) && ObserveAll(Observing(compare, teacher, chain), taps).Ok?
    ensures var k := FirstDiverging(taps, if ofTeacher then teacher else chain);
            FirstNoisy(ObserveAll(Observing(compare, teacher, chain), taps).value, ofTeacher)
            == TapAt(taps, k)
  {
    if taps != [] {
      FirstErrorIsFirstDivergence(compare, taps[..|taps| - 1], teacher, chain, ofTeacher);
      var observe := Observing(compare, teacher, chain);
      var observations := ObserveAll(observe, taps).value;
      assert observations[..|observations| - 1] == ObserveAll(observe, taps[..|taps| - 1]).value;
      NoisyMeansDiverges(compare, taps[|taps| - 1], teacher, chain);
    }
  }

  /** With the tensor comparison itself, a report names exactly the first diverging tap of each run. */
  lemma ReportNamesFirstDivergences(floor: real, sqrt: real -> real, taps: seq<Tap>, teacher: Option<Outputs>,
                                    chain: Option<Outputs>)
    requires IsRoot(sqrt) && ObserveAll(Observing(Comparing(floor, sqrt), teacher, chain), taps).Ok?
    ensures var report := ReportOf(ObserveAll(Observing(Comparing(floor, sqrt), teacher, chain), taps).value);
            && report.firstTeacher == TapAt(taps, FirstDiverging(taps, teacher))
            && report.firstChain == TapAt(taps, FirstDiverging(taps, chain))
  {
    ComparingFindsDifferences(floor, sqrt);
    FirstErrorIsFirstDivergence(Comparing(floor, sqrt), taps, teacher, chain, true);
    FirstErrorIsFirstDivergence(Comparing(floor, sqrt), taps, teacher, chain, false);
  }

  function TapAt(taps: seq<Tap>, k: nat): Option<(string, string)> {
    if k < |taps| then Some((taps[k].sliceId, taps[k].tensor)) else None
  }

  /** The label says which of the two runs differs from the reference, and which is worse. */
  lemma LabelMeans(compare: Comparison, tap: Tap, teacher: Option<Outputs>, chain: Option<Outputs>)
    requires NoiseMeansDifferent(compare) && Observe(compare, tap, teacher, chain).Ok?
    requires Recorded(tap, teacher) && Recorded(tap, chain)
    ensures var o := Observe(compare, tap, teacher, chain).value;
            var local, chained := Diverges(tap, teacher), Diverges(tap, chain);
            && (o.verdict == ExactBoth <==> !local && !chained)
            && (o.verdict == PropagatedOnly <==> !local && chained)
            && (o.verdict == LocalNotInChain <==> local && !chained)
            && (o.verdict in {LocalPlusPropagated, ChainReduced, ChainUnchanged} <==> local && chained)
            && o.delta.Some? && o.teacher.Some? && o.chain.Some?
            && o.chain.value.noiseEnergy == o.teacher.value.noiseEnergy + o.delta.value
            && (o.verdict == LocalPlusPropagated ==> o.delta.value > 0.0)
            && (o.verdict == ChainReduced ==> o.delta.value < 0.0)
            && (o.verdict == ChainUnchanged ==> o.delta.value == 0.0)
  {
  }
}
