/**
 * The pure decisions of Tunny's trial orchestration (`Tunny/Solver/Algorithm.cs`):
 * the stop rule, the NaN retry bound, the hypervolume edge cases, garbage-collection
 * policy, sampler dispatch, name-based extraction of the optimum, the resume
 * precondition and the `result_` attribute indexing of human-in-the-loop runs.
 */
module SolverRules {
  import opened Wrappers
  import opened Strings
  import opened Backend
  import Int32

  /** The terminal reasons of a run that the core sets. */
  datatype EndState =
    | AllTrialCompleted
    | Timeout
    | StoppedByUser
    | DirectionNumNotMatch
    | UseExitStudyWithoutLoading
    | Error

  datatype GcAfterTrial = Always | HasGeometry | NoExecute

  datatype SamplerKind = TPE | BoTorch | NSGAII | NSGAIII | CmaEs | QMC | Random

  /** The part of `TunnySettings` the core reads. */
  datatype Settings = Settings(
    studyName: string,
    selectSampler: int,
    numberOfTrials: int,
    timeout: real,
    showRealtimeResult: bool,
    gcAfterTrial: GcAfterTrial,
    isHumanInTheLoop: bool,
    continueStudy: bool)

  /** An objective image produced by the evaluator; only how many there are matters. */
  type Image = int

  /** `EvaluatedGHResult`: what one evaluation of the Grasshopper model returns. */
  datatype EvalResult = EvalResult(
    objectiveValues: seq<Double>,
    objectiveImages: seq<Image>,
    geometryJson: seq<string>,
    attribute: Option<seq<(string, seq<string>)>>)

  /** `new EvaluatedGHResult()`: the non-null placeholder a run starts with. */
  const EmptyResult := EvalResult([], [], [], None)

  /** The progress snapshot handed to the evaluator (the time estimate is not modelled). */
  datatype ProgressState = ProgressState(
    trialNumber: int,
    objectiveNum: int,
    bestValues: Option<seq<seq<Double>>>,
    values: seq<real>,
    hypervolumeRatio: real)

  // ---------------------------------------------------------------- stop rule

  /**
   * `CheckOptimizeComplete`: the terminal reason if the run is to stop now.
   * The trial count is checked first, then the timeout (only when positive), then the forced-stop flag.
   */
  function StopDecision(nTrials: int, timeout: real, trialNum: int, elapsed: real, forcedStop: bool): (r: Option<EndState>)
    ensures r == Some(AllTrialCompleted) <==> trialNum >= nTrials
    ensures r == Some(Timeout) <==> trialNum < nTrials && timeout > 0.0 && elapsed >= timeout
    ensures r == Some(StoppedByUser) <==> trialNum < nTrials && !(timeout > 0.0 && elapsed >= timeout) && forcedStop
    ensures r.None? <==> trialNum < nTrials && !(timeout > 0.0 && elapsed >= timeout) && !forcedStop
  {
    if trialNum >= nTrials then Some(AllTrialCompleted)
    else if timeout > 0.0 && elapsed >= timeout then Some(Timeout)
    else if forcedStop then Some(StoppedByUser)
    else None
  }

  /**
   * The forced-stop flag just before the `k`-th check of a loop receives its request: set
   * when it was set at the start or when a request arrived at one of the checks 0..k-1.
   * No check before the last one resets it, because the check that resets it ends the loop.
   */
  function FlagBefore(flag0: bool, requests: nat -> bool, k: nat): bool
  {
    if k == 0 then flag0 else FlagBefore(flag0, requests, k - 1) || requests(k - 1)
  }

  /** The decision of the `k`-th check of a loop whose elapsed time and stop requests are given per check. */
  function RunDecision(nTrials: int, timeout: real, elapsedAt: nat -> real, requests: nat -> bool, flag0: bool, k: nat): Option<EndState>
  {
    StopDecision(nTrials, timeout, k, elapsedAt(k), FlagBefore(flag0, requests, k + 1))
  }

  lemma {:induction false} NoRequestNoFlag(flag0: bool, requests: nat -> bool, k: nat)
    requires !flag0
    requires forall j: nat :: j < k ==> !requests(j)
    ensures !FlagBefore(flag0, requests, k)
  {
    if k > 0 {
      NoRequestNoFlag(flag0, requests, k - 1);
    }
  }

  /**
   * Since the stop check runs before every step, a run without timeout, forced stop or
   * abort stops at its check number max(nTrials, 0), with AllTrialCompleted, and at no earlier check.
   */
  lemma UninterruptedRunCompletesAllTrials(nTrials: int, timeout: real, elapsedAt: nat -> real, requests: nat -> bool, flag0: bool)
    requires timeout <= 0.0 && !flag0
    requires forall j: nat :: !requests(j)
    ensures forall k: nat :: k < nTrials ==> RunDecision(nTrials, timeout, elapsedAt, requests, flag0, k).None?
    ensures RunDecision(nTrials, timeout, elapsedAt, requests, flag0, if nTrials > 0 then nTrials else 0) == Some(AllTrialCompleted)
  {
    forall k: nat ensures RunDecision(nTrials, timeout, elapsedAt, requests, flag0, k) == StopDecision(nTrials, timeout, k, elapsedAt(k), false) {
      NoRequestNoFlag(flag0, requests, k + 1);
    }
  }

  /**
   * A stop request that arrives before check `k`, with none earlier, no timeout and trials
   * left, ends the run at exactly that check with StoppedByUser: k steps have run.
   */
  lemma StopRequestEndsRunAtNextCheck(nTrials: int, timeout: real, elapsedAt: nat -> real, requests: nat -> bool, flag0: bool, k: nat)
    requires timeout <= 0.0 && !flag0 && k < nTrials
    requires requests(k)
    requires forall j: nat :: j < k ==> !requests(j)
    ensures forall j: nat :: j < k ==> RunDecision(nTrials, timeout, elapsedAt, requests, flag0, j).None?
    ensures RunDecision(nTrials, timeout, elapsedAt, requests, flag0, k) == Some(StoppedByUser)
  {
    forall j: nat | j < k ensures RunDecision(nTrials, timeout, elapsedAt, requests, flag0, j) == StopDecision(nTrials, timeout, j, elapsedAt(j), false) {
      NoRequestNoFlag(flag0, requests, j + 1);
    }
  }

  // ---------------------------------------------------------------- NaN retries

  /** A step gives up at its 11th evaluation, after this many NaN results. */
  const MaxNaNRetries: nat := 10

  /**
   * Given which of a step's evaluations returned a NaN, the index of the evaluation the
   * step keeps: the first NaN-free one among the first MaxNaNRetries, or None when the
   * step gives up (the 11th evaluation is discarded whatever it returned).
   */
  function FirstClean(isNaN: seq<bool>, from: nat): (r: Option<nat>)
    requires from <= MaxNaNRetries
    ensures r.Some? ==> from <= r.value < MaxNaNRetries && r.value < |isNaN| && !isNaN[r.value]
    ensures r.Some? ==> forall j :: from <= j < r.value ==> isNaN[j]
    ensures r.None? ==> forall j :: from <= j < MaxNaNRetries && j < |isNaN| ==> isNaN[j]
    decreases MaxNaNRetries - from
  {
    if from == MaxNaNRetries || from >= |isNaN| then None
    else if !isNaN[from] then Some(from)
    else FirstClean(isNaN, from + 1)
  }

  /** C# `/` on `int`: the quotient truncated toward zero. */
  function TruncDiv(a: int, b: int): int
    requires b != 0
  {
    var q := (if a < 0 then -a else a) / (if b < 0 then -b else b);
    if (a < 0) != (b < 0) then -q else q
  }

  /**
   * `trialNum * 100 / nTrials`, the progress percentage passed to the evaluator: the product
   * is unchecked C# `int` arithmetic and wraps, the division truncates.
   */
  function Progress(trialNum: int, nTrials: int): (p: int)
    requires nTrials != 0
    ensures 0 <= trialNum < nTrials && trialNum * 100 <= Int32.Max ==> 0 <= p < 100
  {
    var p := TruncDiv(Int32.Wrap(trialNum * 100), nTrials);
    assert 0 <= trialNum < nTrials && trialNum * 100 <= Int32.Max ==> p < 100 by {
      if 0 <= trialNum < nTrials && trialNum * 100 <= Int32.Max {
        var a, b := trialNum * 100, nTrials;
        assert Int32.Wrap(a) == a;
        assert TruncDiv(a, b) == a / b;
        assert a < b * 100;
      }
    }
    p
  }

  /** Past about 21.5 million trials the product wraps and the percentage goes negative. */
  lemma ProgressWrapsNegative()
    ensures Progress(30_000_000, 40_000_000) == -32
  {
    assert Int32.Wrap(3_000_000_000) == -1_294_967_296;
  }

  // ---------------------------------------------------------------- telemetry

  /**
   * `ComputeBestValues`' ratio rule: 0 before any trial, 1 after the first trial or for a
   * single objective, otherwise what the hypervolume routine computed.
   */
  function HypervolumeRatio(trialNum: int, nObjective: int, computed: real): (r: real)
    ensures trialNum == 0 ==> r == 0.0
    ensures trialNum != 0 && (trialNum == 1 || nObjective == 1) ==> r == 1.0
    ensures trialNum > 1 && nObjective != 1 ==> r == computed
    ensures 0.0 <= computed <= 1.0 ==> 0.0 <= r <= 1.0
  {
    if trialNum == 0 then 0.0 else if trialNum == 1 || nObjective == 1 then 1.0 else computed
  }

  /** `ComputeBestValues`: no best values and ratio 0 unless realtime display is on. */
  function ComputeBestValues(showRealtime: bool, trialNum: int, nObjective: int, bestTrials: seq<seq<Double>>, computed: real)
    : (r: (Option<seq<seq<Double>>>, real))
    ensures !showRealtime ==> r == (None, 0.0)
    ensures showRealtime ==> r.0 == Some(bestTrials) && r.1 == HypervolumeRatio(trialNum, nObjective, computed)
    ensures 0.0 <= computed <= 1.0 ==> 0.0 <= r.1 <= 1.0
  {
    if showRealtime then (Some(bestTrials), HypervolumeRatio(trialNum, nObjective, computed)) else (None, 0.0)
  }

  // ---------------------------------------------------------------- garbage collection

  /** `RunGC`'s guard: whether `gc.collect()` is called after a trial. */
  predicate RunGC(gc: GcAfterTrial, geometryCount: int)
  {
    !((gc != Always) && ((geometryCount <= 0) || (gc != HasGeometry)))
  }

  /** The guard collects always under Always, only with geometry under HasGeometry, never otherwise. */
  lemma RunGCPolicy(gc: GcAfterTrial, geometryCount: int)
    ensures RunGC(gc, geometryCount) <==> gc == Always || (gc == HasGeometry && geometryCount > 0)
  {
  }

  // ---------------------------------------------------------------- sampler dispatch

  /** The `switch` of `SetSamplerSettings`: 0 and 7 are TPE; anything outside 0..7 is unknown. */
  function SamplerFor(samplerType: int): (r: Option<SamplerKind>)
    ensures r.None? <==> samplerType < 0 || samplerType > 7
  {
    match samplerType
    case 0 => Some(TPE)
    case 7 => Some(TPE)
    case 1 => Some(BoTorch)
    case 2 => Some(NSGAII)
    case 3 => Some(NSGAIII)
    case 4 => Some(CmaEs)
    case 5 => Some(QMC)
    case 6 => Some(Random)
    case _ => None
  }

  /** The samplers whose constructor is handed `hasConstraints`. */
  predicate TakesConstraints(kind: SamplerKind)
  {
    kind in {TPE, BoTorch, NSGAII, NSGAIII}
  }

  /** The sampler chosen, whether it is built with constraints, and whether the user is warned. */
  datatype SamplerChoice = SamplerChoice(kind: SamplerKind, withConstraints: bool, warnsConstraintsIgnored: bool)

  /** The warning condition as the source writes it: `samplerType > 4 && hasConstraints`. */
  predicate ConstraintWarningAsWritten(samplerType: int, hasConstraints: bool)
  {
    samplerType > 4 && hasConstraints
  }

  /**
   * The written condition misses CMA-ES (type 4), which is built without the constraints,
   * and fires for type 7, which is TPE and honours them.
   */
  lemma ConstraintWarningAsWrittenMisfires()
    ensures SamplerFor(4) == Some(CmaEs) && !TakesConstraints(CmaEs) && !ConstraintWarningAsWritten(4, true)
    ensures SamplerFor(7) == Some(TPE) && TakesConstraints(TPE) && ConstraintWarningAsWritten(7, true)
  {
  }

  /**
   * `SetSamplerSettings`: the sampler for the type number, or the "Unknown sampler type"
   * exception; the warning is given exactly when constraints exist but the sampler drops them.
   */
  function SetSamplerSettings(samplerType: int, hasConstraints: bool): (r: Result<SamplerChoice, string>)
    ensures r.Failure? <==> samplerType < 0 || samplerType > 7
    ensures r.Success? ==> Some(r.value.kind) == SamplerFor(samplerType)
    ensures r.Success? ==> (r.value.withConstraints <==> hasConstraints && TakesConstraints(r.value.kind))
    ensures r.Success? ==> (r.value.warnsConstraintsIgnored <==> hasConstraints && !r.value.withConstraints)
  {
    match SamplerFor(samplerType)
    case None => Failure("Unknown sampler type")
    case Some(kind) =>
      var passed := TakesConstraints(kind);
      Success(SamplerChoice(kind, passed && hasConstraints, !passed && hasConstraints))
  }

  // ---------------------------------------------------------------- optimum extraction

  /** The value of the last pair whose key is `name`, or 0 (the array's default) when none is. */
  function ParamValue(pairs: seq<(string, real)>, name: string): real
  {
    if |pairs| == 0 then 0.0
    else if pairs[|pairs| - 1].0 == name then pairs[|pairs| - 1].1
    else ParamValue(pairs[..|pairs| - 1], name)
  }

  lemma {:induction false} ParamValueLastMatch(pairs: seq<(string, real)>, name: string, j: nat)
    requires j < |pairs| && pairs[j].0 == name
    requires forall k :: j < k < |pairs| ==> pairs[k].0 != name
    ensures ParamValue(pairs, name) == pairs[j].1
    decreases |pairs|
  {
    if j < |pairs| - 1 {
      ParamValueLastMatch(pairs[..|pairs| - 1], name, j);
    }
  }

  lemma {:induction false} ParamValueNoMatch(pairs: seq<(string, real)>, name: string)
    requires forall k :: 0 <= k < |pairs| ==> pairs[k].0 != name
    ensures ParamValue(pairs, name) == 0.0
    decreases |pairs|
  {
    if |pairs| > 0 {
      ParamValueNoMatch(pairs[..|pairs| - 1], name);
    }
  }

  predicate DistinctKeys(pairs: seq<(string, real)>)
  {
    forall i, j :: 0 <= i < j < |pairs| ==> pairs[i].0 != pairs[j].0
  }

  /** With distinct keys the lookup finds the one pair for `name`, wherever it stands. */
  lemma ParamValueOfPair(pairs: seq<(string, real)>, name: string, v: real)
    requires DistinctKeys(pairs) && (name, v) in pairs
    ensures ParamValue(pairs, name) == v
  {
    var j :| 0 <= j < |pairs| && pairs[j] == (name, v);
    ParamValueLastMatch(pairs, name, j);
  }

  /** The optimum does not depend on the order in which the study lists its best parameters. */
  lemma ParamValueIgnoresKeyOrder(p: seq<(string, real)>, q: seq<(string, real)>, name: string)
    requires DistinctKeys(p) && DistinctKeys(q)
    requires forall x :: x in p <==> x in q
    ensures ParamValue(p, name) == ParamValue(q, name)
  {
    if j :| 0 <= j < |p| && p[j].0 == name {
      ParamValueOfPair(p, name, p[j].1);
      ParamValueOfPair(q, name, p[j].1);
    } else {
      ParamValueNoMatch(p, name);
      forall k | 0 <= k < |q| ensures q[k].0 != name {
        assert q[k] in p;
      }
      ParamValueNoMatch(q, name);
    }
  }

  // ---------------------------------------------------------------- resume precondition

  /**
   * `CheckExistStudyParameter`/`CheckDirections`: None when the run may proceed, otherwise
   * the end state recorded. `directions` maps each stored study name to its number of directions.
   */
  function StudyConflict(studyName: string, continueStudy: bool, nObjective: int, directions: map<string, int>): (r: Option<EndState>)
    ensures r.None? <==> studyName !in directions || (continueStudy && directions[studyName] == nObjective)
    ensures r == Some(UseExitStudyWithoutLoading) <==> studyName in directions && !continueStudy
    ensures r == Some(DirectionNumNotMatch) <==> studyName in directions && continueStudy && directions[studyName] != nObjective
  {
    if studyName !in directions then None
    else if !continueStudy then Some(UseExitStudyWithoutLoading)
    else if directions[studyName] == nObjective then None
    else Some(DirectionNumNotMatch)
  }

  // ---------------------------------------------------------------- human-in-the-loop attributes

  /** Objectives with this in their name are images judged by a person, not numbers. */
  const HumanInTheLoopMarker := "Human-in-the-Loop"

  /** The objective names that stand for numeric objectives, in order. */
  function PlainNames(names: seq<string>): (r: seq<string>)
    ensures |r| <= |names|
    ensures forall k :: 0 <= k < |r| ==> r[k] in names && !Contains(r[k], HumanInTheLoopMarker)
  {
    if |names| == 0 then []
    else
      var front := PlainNames(names[..|names| - 1]);
      if Contains(names[|names| - 1], HumanInTheLoopMarker) then front else front + [names[|names| - 1]]
  }

  /** Extending the names by one extends the numeric ones by that name unless it has the marker. */
  lemma PlainNamesNext(names: seq<string>, i: nat)
    requires i < |names|
    ensures PlainNames(names[..i + 1]) ==
            if Contains(names[i], HumanInTheLoopMarker) then PlainNames(names[..i]) else PlainNames(names[..i]) + [names[i]]
  {
    assert names[..i + 1][..i] == names[..i];
  }

  /** Each numeric objective name, prefixed `result_`, paired with the next objective value. */
  function ResultAttrs(plain: seq<string>, values: seq<Double>): (r: seq<(string, AttrValue)>)
    requires |plain| <= |values|
    ensures |r| == |plain|
    ensures forall k :: 0 <= k < |r| ==> r[k] == ("result_" + plain[k], Float(values[k]))
  {
    seq(|plain|, k requires 0 <= k < |plain| => ("result_" + plain[k], Float(values[k])))
  }

  lemma ResultAttrsNext(plain: seq<string>, values: seq<Double>, name: string)
    requires |plain| < |values|
    ensures ResultAttrs(plain + [name], values) == ResultAttrs(plain, values) + [("result_" + name, Float(values[|plain|]))]
  {
  }

  /** `SetNonGeometricAttr`: each attribute list as strings, except `Constraint`, whose entries are floats. */
  function NonGeometricAttr(attribute: seq<(string, seq<string>)>): (r: seq<(string, AttrValue)>)
    ensures |r| == |attribute|
    ensures forall k :: 0 <= k < |r| ==> r[k].0 == attribute[k].0
    ensures forall k :: 0 <= k < |r| ==>
      r[k].1 == if attribute[k].0 == "Constraint" then FloatList(attribute[k].1) else StringList(attribute[k].1)
  {
    seq(|attribute|, k requires 0 <= k < |attribute| =>
      (attribute[k].0, if attribute[k].0 == "Constraint" then FloatList(attribute[k].1) else StringList(attribute[k].1)))
  }

  lemma {:induction false} PlainNamesGrow(names: seq<string>, i: nat, j: nat)
    requires i <= j <= |names|
    ensures |PlainNames(names[..i])| <= |PlainNames(names[..j])|
    decreases j - i
  {
    if i < j {
      PlainNamesGrow(names, i, j - 1);
      assert names[..j][..j - 1] == names[..j - 1];
    }
  }

  /**
   * Where the `result_` loop of a human-in-the-loop step, resumed at index `i`, stops: `n` when
   * it runs to the end, otherwise the first index at which reading the objective name
   * (past the end of the names) or the value (past the end of the values) throws.
   */
  function ResultScanEnd(names: seq<string>, valueCount: nat, i: nat, n: nat): (r: nat)
    requires i <= n && i <= |names| && |PlainNames(names[..i])| <= valueCount
    ensures i <= r <= n && r <= |names| && |PlainNames(names[..r])| <= valueCount
    ensures r < n ==> r == |names| || (!Contains(names[r], HumanInTheLoopMarker) && |PlainNames(names[..r])| == valueCount)
    decreases n - i
  {
    if i == n || i == |names| then i
    else if !Contains(names[i], HumanInTheLoopMarker) && |PlainNames(names[..i])| == valueCount then i
    else
      assert names[..i + 1][..i] == names[..i];
      ResultScanEnd(names, valueCount, i + 1, n)
  }

  /** The scan stops at the first index that throws: every index before it reads a name and, if numeric, a value. */
  lemma {:induction false} ResultScanEndIsFirst(names: seq<string>, valueCount: nat, i: nat, n: nat, j: nat)
    requires i <= n && i <= |names| && |PlainNames(names[..i])| <= valueCount
    requires i <= j < ResultScanEnd(names, valueCount, i, n)
    ensures j < |names| && (Contains(names[j], HumanInTheLoopMarker) || |PlainNames(names[..j])| < valueCount)
    decreases n - i
  {
    if i < j {
      assert names[..i + 1][..i] == names[..i];
      ResultScanEndIsFirst(names, valueCount, i + 1, n, j);
    }
  }

  /** One step of the scan: an index that does not throw passes the scan on to the next. */
  lemma ResultScanEndStep(names: seq<string>, valueCount: nat, i: nat, n: nat)
    requires i < n && i < |names| && |PlainNames(names[..i])| <= valueCount
    requires Contains(names[i], HumanInTheLoopMarker) || |PlainNames(names[..i])| < valueCount
    ensures |PlainNames(names[..i + 1])| <= valueCount
    ensures ResultScanEnd(names, valueCount, i, n) == ResultScanEnd(names, valueCount, i + 1, n)
  {
    assert names[..i + 1][..i] == names[..i];
  }
  /** A step of the loop at a numeric name that has a value: one more pair, the same scan end. */
  lemma NumericNameStep(names: seq<string>, values: seq<Double>, i: nat, n: nat)
    requires i < n && i < |names| && |PlainNames(names[..i])| < |values|
    requires !Contains(names[i], HumanInTheLoopMarker)
    ensures PlainNames(names[..i + 1]) == PlainNames(names[..i]) + [names[i]]
    ensures ResultScanEnd(names, |values|, i, n) == ResultScanEnd(names, |values|, i + 1, n)
    ensures ResultAttrs(PlainNames(names[..i + 1]), values)
            == ResultAttrs(PlainNames(names[..i]), values) + [("result_" + names[i], Float(values[|PlainNames(names[..i])|]))]
  {
    PlainNamesNext(names, i);
    ResultScanEndStep(names, |values|, i, n);
    ResultAttrsNext(PlainNames(names[..i]), values, names[i]);
  }

  /** A step of the loop at an image name: no pair, the same scan end. */
  lemma ImageNameStep(names: seq<string>, valueCount: nat, i: nat, n: nat)
    requires i < n && i < |names| && |PlainNames(names[..i])| <= valueCount
    requires Contains(names[i], HumanInTheLoopMarker)
    ensures PlainNames(names[..i + 1]) == PlainNames(names[..i])
    ensures ResultScanEnd(names, valueCount, i, n) == ResultScanEnd(names, valueCount, i + 1, n)
  {
    PlainNamesNext(names, i);
    ResultScanEndStep(names, valueCount, i, n);
  }


  /** The names and values line up: every name read exists and every numeric one has a value. */
  predicate FitsObjectives(result: EvalResult, names: seq<string>)
  {
    var n := |result.objectiveValues| + |result.objectiveImages|;
    n <= |names| && |PlainNames(names[..n])| <= |result.objectiveValues|
  }

  /**
   * The `result_` attributes a human-in-the-loop step writes before the loop ends or throws,
   * and the exception it throws, if any.
   */
  function HitlResults(result: EvalResult, names: seq<string>): (r: (seq<(string, AttrValue)>, Option<string>))
    ensures r.1.None? <==> FitsObjectives(result, names)
    ensures r.1.Some? ==> r.1 == Some("IndexOutOfRangeException")
    ensures var n := |result.objectiveValues| + |result.objectiveImages|;
            r.1.None? ==> r.0 == ResultAttrs(PlainNames(names[..n]), result.objectiveValues)
  {
    var n := |result.objectiveValues| + |result.objectiveImages|;
    var s := ResultScanEnd(names, |result.objectiveValues|, 0, n);
    assert s < n ==> !FitsObjectives(result, names) by {
      if s < n && n <= |names| {
        assert names[..s + 1][..s] == names[..s];
        PlainNamesGrow(names, s + 1, n);
      }
    }
    (ResultAttrs(PlainNames(names[..s]), result.objectiveValues), if s == n then None else Some("IndexOutOfRangeException"))
  }

  /** The geometry and the other attributes, which every kept result writes first. */
  function FixedTrialAttrs(result: EvalResult): seq<(string, AttrValue)>
  {
    (if |result.geometryJson| != 0 then [("Geometry", StringList(result.geometryJson))] else [])
    + (if result.attribute.Some? then NonGeometricAttr(result.attribute.value) else [])
  }

  /**
   * `SetTrialUserAttr`: the trial attributes written for a kept result, in order, and the
   * exception that ends the writing. Only human-in-the-loop runs with numeric values write
   * `result_` attributes, and only they can throw.
   */
  function TrialUserAttrs(result: EvalResult, humanInTheLoop: bool, names: seq<string>): (r: (seq<(string, AttrValue)>, Option<string>))
    ensures r.1.None? <==> !humanInTheLoop || |result.objectiveValues| == 0 || FitsObjectives(result, names)
    ensures r.1.Some? ==> r.1 == Some("IndexOutOfRangeException")
    ensures |FixedTrialAttrs(result)| <= |r.0| && r.0[..|FixedTrialAttrs(result)|] == FixedTrialAttrs(result)
    ensures !humanInTheLoop || |result.objectiveValues| == 0 ==> r == (FixedTrialAttrs(result), None)
    ensures var n := |result.objectiveValues| + |result.objectiveImages|;
            humanInTheLoop && |result.objectiveValues| != 0 && FitsObjectives(result, names) ==>
              r.0 == FixedTrialAttrs(result) + ResultAttrs(PlainNames(names[..n]), result.objectiveValues)
  {
    var fixed := FixedTrialAttrs(result);
    if |result.objectiveValues| != 0 && humanInTheLoop then
      var h := HitlResults(result, names);
      assert (fixed + h.0)[..|fixed|] == fixed;
      (fixed + h.0, h.1)
    else (fixed, None)
  }
}
