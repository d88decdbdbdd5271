/**
 * Tunny's trial orchestration loop (`Tunny/Solver/Algorithm.cs`): the `Algorithm` class
 * with its end state, forced-stop flag and result, driving an abstract study (`Backend.Study`)
 * and an evaluator given as a function.
 *
 * What happens outside the loop's thread or outside the process is given per stop check:
 * `elapsedAt(k)` is the elapsed time in seconds the k-th check reads, `requests(k)` says
 * whether a stop was requested (the UI setting the flag) just before the k-th check, and
 * `runningAt(k)` is the running-trial count the k-th human-in-the-loop poll reads.
 */
module Solver {
  import opened Wrappers
  import opened Strings
  import opened Backend
  import opened SolverRules

  /** `RunHumanInTheLoopOptimize(runOptimizeSettings, 3, ...)`: at most three trials wait for a person. */
  const HumanInTheLoopBatch: int := 3

  /** The key under which the variable names are stored on the study. */
  const VariableNamesKey := "variable_names"

  /** `enqueueDict` for the `i`-th pre-seeded point: every item's key with its `i`-th value. */
  ghost predicate IsEnqueuePoint(point: map<string, real>, items: seq<(string, seq<real>)>, i: nat)
  {
    && point.Keys == (set k | 0 <= k < |items| :: items[k].0)
    && forall k :: 0 <= k < |items| && i < |items[k].1| ==> point[items[k].0] == items[k].1[i]
  }

  predicate DistinctNames<T>(s: seq<(string, T)>)
  {
    forall i, j :: 0 <= i < j < |s| ==> s[i].0 != s[j].0
  }

  /** The dictionary `CheckExistStudyParameter` builds from the stored study summaries. */
  function DirectionsOf(summaries: seq<(string, int)>): (m: map<string, int>)
    ensures m.Keys == set i | 0 <= i < |summaries| :: summaries[i].0
  {
    if |summaries| == 0 then map[]
    else DirectionsOf(summaries[..|summaries| - 1])[summaries[|summaries| - 1].0 := summaries[|summaries| - 1].1]
  }

  lemma {:induction false} DirectionsOfLookup(summaries: seq<(string, int)>, i: nat)
    requires DistinctNames(summaries) && i < |summaries|
    ensures DirectionsOf(summaries)[summaries[i].0] == summaries[i].1
    decreases |summaries|
  {
    if i < |summaries| - 1 {
      DirectionsOfLookup(summaries[..|summaries| - 1], i);
    }
  }

  /** The length of the shortest value list among the pre-seeded items. */
  function MinLength(items: seq<(string, seq<real>)>): (m: nat)
    requires |items| > 0
    ensures forall k :: 0 <= k < |items| ==> m <= |items[k].1|
    ensures exists k :: 0 <= k < |items| && m == |items[k].1|
  {
    if |items| == 1 then |items[0].1|
    else
      var front := MinLength(items[..|items| - 1]);
      assert forall k :: 0 <= k < |items| - 1 ==> items[..|items| - 1][k] == items[k];
      if |items[|items| - 1].1| < front then |items[|items| - 1].1| else front
  }

  /** The exception `EnqueueTrial` throws: some item has fewer values than the first. */
  function EnqueueError(items: seq<(string, seq<real>)>): (e: Option<string>)
    ensures e.Some? <==> exists k :: 0 <= k < |items| && |items[k].1| < |items[0].1|
    ensures e.Some? ==> e == Some("ArgumentOutOfRangeException")
  {
    if |items| == 0 || MinLength(items) == |items[0].1| then None else Some("ArgumentOutOfRangeException")
  }

  /** The `i`-th pre-seeded point: each item's name with its `i`-th value. */
  function PointOf(items: seq<(string, seq<real>)>, i: nat): map<string, real>
    requires forall k :: 0 <= k < |items| ==> i < |items[k].1|
  {
    if |items| == 0 then map[]
    else
      assert forall k :: 0 <= k < |items| - 1 ==> items[..|items| - 1][k] == items[k];
      PointOf(items[..|items| - 1], i)[items[|items| - 1].0 := items[|items| - 1].1[i]]
  }

  /** The points `EnqueueTrial` enqueues, in order: as many as the shortest item has values. */
  function EnqueuedPoints(items: seq<(string, seq<real>)>): (r: seq<map<string, real>>)
    ensures |r| == if |items| == 0 then 0 else MinLength(items)
  {
    if |items| == 0 then []
    else seq(MinLength(items), i requires 0 <= i < MinLength(items) => PointOf(items, i))
  }

  /** With distinct names, a point holds exactly the item names, each with its `i`-th value. */
  lemma {:induction false} PointOfIsEnqueuePoint(items: seq<(string, seq<real>)>, i: nat)
    requires DistinctNames(items)
    requires forall k :: 0 <= k < |items| ==> i < |items[k].1|
    ensures IsEnqueuePoint(PointOf(items, i), items, i)
    decreases |items|
  {
    if |items| > 0 {
      var front := items[..|items| - 1];
      assert forall k :: 0 <= k < |front| ==> front[k] == items[k];
      PointOfIsEnqueuePoint(front, i);
      assert (set k | 0 <= k < |items| :: items[k].0) == (set k | 0 <= k < |front| :: front[k].0) + {items[|items| - 1].0};
    }
  }

  /** Every point `EnqueueTrial` enqueues gives each item its value at the point's index. */
  lemma EnqueuedPointsAreItemValues(items: seq<(string, seq<real>)>, p: nat)
    requires DistinctNames(items) && p < |EnqueuedPoints(items)|
    ensures IsEnqueuePoint(EnqueuedPoints(items)[p], items, p)
  {
    PointOfIsEnqueuePoint(items, p);
  }

  /** `Variables.Select(v => v.NickName)`. */
  function NickNames(variables: seq<Variable>): (r: seq<string>)
    ensures |r| == |variables| && forall i :: 0 <= i < |r| ==> r[i] == variables[i].nickName
  {
    seq(|variables|, i requires 0 <= i < |variables| => variables[i].nickName)
  }

  class Algorithm {
    const variables: seq<Variable>
    const hasConstraints: bool
    const objNickName: seq<string>
    /** `FishEgg`: points to evaluate first, as variable name and its list of values. */
    const fishEgg: seq<(string, seq<real>)>
    const settings: Settings
    /** `EvalFunc`: runs the Grasshopper model for a progress state and percentage. */
    const evalFunc: (ProgressState, int) -> EvalResult

    /** `XOpt`: null until `SetResultValues` stores an optimum. */
    var xOpt: Option<seq<real>>
    /** `EndState`; the constructor leaves it at the enum's default, which `Solve` overwrites first. */
    var endState: EndState
    /** `OptimizeLoop.IsForcedStopOptimize`, a static flag in the source. */
    var forcedStop: bool
    /** Number of `gc.collect()` calls made by `RunGC`. */
    var gcRuns: nat

    constructor (variables: seq<Variable>, hasConstraints: bool, objNickName: seq<string>,
                 fishEgg: seq<(string, seq<real>)>, settings: Settings, evalFunc: (ProgressState, int) -> EvalResult)
      ensures this.variables == variables && this.hasConstraints == hasConstraints
      ensures this.objNickName == objNickName && this.fishEgg == fishEgg
      ensures this.settings == settings && this.evalFunc == evalFunc
      ensures xOpt.None? && !forcedStop && gcRuns == 0
    {
      this.variables, this.hasConstraints, this.objNickName := variables, hasConstraints, objNickName;
      this.fishEgg, this.settings, this.evalFunc := fishEgg, settings, evalFunc;
      xOpt, forcedStop, gcRuns := None, false, 0;
    }

    // ------------------------------------------------------------ what a step computes

    /** The value the study suggests for one variable of a trial. */
    function SuggestOne(study: Study, trial: nat, v: Variable): real
    {
      if v.isInteger then study.suggestInt(trial, v) as real else study.suggestFloat(trial, v)
    }

    /** The parameter vector of a trial, in variable order. */
    function Suggested(study: Study, trial: nat): (xs: seq<real>)
      ensures |xs| == |variables|
      ensures forall j :: 0 <= j < |xs| && variables[j].isInteger ==> xs[j] == study.suggestInt(trial, variables[j]) as real
    {
      seq(|variables|, j requires 0 <= j < |variables| => SuggestOne(study, trial, variables[j]))
    }

    /** `SetProgressState`, without the time estimate. */
    function ProgressStateFor(study: Study, told: seq<TellRecord>, trialNum: int, values: seq<real>): (p: ProgressState)
      ensures p.trialNumber == trialNum && p.values == values && p.objectiveNum == |objNickName|
      ensures !settings.showRealtimeResult ==> p.bestValues.None? && p.hypervolumeRatio == 0.0
    {
      var best := ComputeBestValues(settings.showRealtimeResult, trialNum, |objNickName|,
                                    study.bestTrialsOf(told), study.hypervolumeOf(told));
      ProgressState(trialNum, |objNickName|, best.0, values, best.1)
    }

    /** What the evaluator returns for trial `trial` during step `trialNum`. */
    function Attempt(study: Study, told: seq<TellRecord>, trialNum: int, nTrials: int, trial: nat): EvalResult
      requires nTrials != 0
    {
      evalFunc(ProgressStateFor(study, told, trialNum, Suggested(study, trial)), Progress(trialNum, nTrials))
    }

    /** Whether the evaluation of trial `trial` during step `trialNum` has a NaN. */
    predicate NaNAt(study: Study, told: seq<TellRecord>, trialNum: int, nTrials: int, trial: nat)
      requires nTrials != 0
    {
      HasNaN(Attempt(study, told, trialNum, nTrials, trial).objectiveValues)
    }

    /** Whether each of the ten evaluations a step may keep, starting at trial `first`, has a NaN. */
    function AttemptsNaN(study: Study, told: seq<TellRecord>, trialNum: int, nTrials: int, first: nat): (flags: seq<bool>)
      requires nTrials != 0
      ensures |flags| == MaxNaNRetries
      ensures forall j :: 0 <= j < |flags| ==> flags[j] == NaNAt(study, told, trialNum, nTrials, first + j)
    {
      seq(MaxNaNRetries, j requires 0 <= j < MaxNaNRetries => NaNAt(study, told, trialNum, nTrials, first + j))
    }

    /** The offset of the trial a step keeps, from its first asked trial, or None when it gives up. */
    function StepKept(study: Study, told: seq<TellRecord>, trialNum: int, nTrials: int, first: nat): (r: Option<nat>)
      requires nTrials != 0
      ensures r.Some? ==> r.value < MaxNaNRetries && !NaNAt(study, told, trialNum, nTrials, first + r.value)
      ensures r.Some? ==> forall t: nat :: first <= t < first + r.value ==> NaNAt(study, told, trialNum, nTrials, t)
      ensures r.None? ==> forall t: nat :: first <= t < first + MaxNaNRetries ==> NaNAt(study, told, trialNum, nTrials, t)
    {
      var flags := AttemptsNaN(study, told, trialNum, nTrials, first);
      assert forall t: nat :: first <= t < first + MaxNaNRetries ==> flags[t - first] == NaNAt(study, told, trialNum, nTrials, t);
      FirstClean(flags, 0)
    }

    /** The step keeps the first NaN-free evaluation within the retry bound. */
    lemma StepKeptFirstClean(study: Study, told: seq<TellRecord>, trialNum: int, nTrials: int, first: nat, k: nat)
      requires nTrials != 0 && k < MaxNaNRetries
      requires forall t: nat :: first <= t < first + k ==> NaNAt(study, told, trialNum, nTrials, t)
      requires !NaNAt(study, told, trialNum, nTrials, first + k)
      ensures StepKept(study, told, trialNum, nTrials, first) == Some(k)
    {
      var flags := AttemptsNaN(study, told, trialNum, nTrials, first);
      assert forall j :: 0 <= j < k ==> flags[j];
      FirstCleanFrom(flags, 0, k);
    }

    // ------------------------------------------------------------ helpers of Solve

    /** `SetDirectionValues`: every objective is minimized. */
    static method SetDirectionValues(nObjective: nat) returns (directions: array<string>)
      ensures fresh(directions) && directions.Length == nObjective
      ensures forall i :: 0 <= i < nObjective ==> directions[i] == "minimize"
    {
      directions := new string[nObjective];
      for i := 0 to nObjective
        invariant forall k :: 0 <= k < i ==> directions[k] == "minimize"
      {
        directions[i] := "minimize";
      }
    }

    /**
     * `NicknameToAttr`: the names joined by commas. With no names, removing the last
     * character of the empty builder throws.
     */
    static method NicknameToAttr(nicknames: seq<string>) returns (r: Result<string, string>)
      ensures r.Failure? <==> nicknames == []
      ensures r.Failure? ==> r.error == "ArgumentOutOfRangeException"
      ensures r.Success? ==> r.value == Join(nicknames, ",")
    {
      var name := "";
      for i := 0 to |nicknames|
        invariant name == Terminated(nicknames[..i], ",")
      {
        assert nicknames[..i + 1][..i] == nicknames[..i];
        name := name + nicknames[i] + ",";
      }
      if |name| == 0 {
        return Failure("ArgumentOutOfRangeException");
      }
      assert nicknames[..|nicknames|] == nicknames;
      if nicknames != [] {
        TerminatedIsJoinThenSep(nicknames, ",");
      }
      r := Success(name[..|name| - 1]);
    }

    /**
     * `EnqueueTrial`: one `enqueue_trial` per value of the first item, each point giving every
     * item its value at that index. An item with fewer values makes the indexing throw once
     * the points it can fill are enqueued. The names are distinct: they are dictionary keys.
     */
    static method EnqueueTrial(study: Study, enqueueItems: seq<(string, seq<real>)>) returns (error: Option<string>)
      modifies study`enqueued
      ensures error == EnqueueError(enqueueItems)
      ensures study.enqueued == old(study.enqueued) + EnqueuedPoints(enqueueItems)
    {
      if |enqueueItems| == 0 {
        return None;
      }
      ghost var before := study.enqueued;
      ghost var points := EnqueuedPoints(enqueueItems);
      error := None;
      for i := 0 to |enqueueItems[0].1|
        invariant error.None? && i <= MinLength(enqueueItems)
        invariant study.enqueued == before + points[..i]
      {
        var enqueueDict, filled := EnqueuePoint(enqueueItems, i);
        if !filled {
          error := Some("ArgumentOutOfRangeException");
          break;
        }
        assert points[..i + 1] == points[..i] + [enqueueDict];
        study.EnqueueTrial(enqueueDict);
      }
      assert error.None? ==> points[..|points|] == points;
    }

    /**
     * The inner loop of `EnqueueTrial`: every item's name with its `i`-th value; `filled` is
     * false when some item has no `i`-th value, where the indexing throws.
     */
    static method EnqueuePoint(enqueueItems: seq<(string, seq<real>)>, i: nat) returns (enqueueDict: map<string, real>, filled: bool)
      requires |enqueueItems| > 0
      ensures filled <==> i < MinLength(enqueueItems)
      ensures filled ==> enqueueDict == PointOf(enqueueItems, i)
    {
      enqueueDict := map[];
      for k := 0 to |enqueueItems|
        invariant forall m :: 0 <= m < k ==> i < |enqueueItems[m].1|
        invariant enqueueDict == PointOf(enqueueItems[..k], i)
      {
        if i >= |enqueueItems[k].1| {
          return enqueueDict, false;
        }
        assert enqueueItems[..k + 1][..k] == enqueueItems[..k];
        enqueueDict := enqueueDict[enqueueItems[k].0 := enqueueItems[k].1[i]];
      }
      assert enqueueItems[..|enqueueItems|] == enqueueItems;
      filled := true;
    }

    /** `CheckDirections`, called only for a study name that is stored. */
    method CheckDirections(nObjective: int, directions: map<string, int>) returns (ok: bool)
      requires settings.studyName in directions
      modifies this`endState
      ensures var c := StudyConflict(settings.studyName, settings.continueStudy, nObjective, directions);
              ok == c.None? && endState == (if c.Some? then c.value else old(endState))
    {
      if !settings.continueStudy {
        endState := UseExitStudyWithoutLoading;
        return false;
      } else if directions[settings.studyName] == nObjective {
        return true;
      } else {
        endState := DirectionNumNotMatch;
        return false;
      }
    }

    /**
     * `CheckExistStudyParameter`: `summaries` lists each stored study's name and number of
     * directions (names are unique in a storage; `Dictionary.Add` throws otherwise).
     */
    method CheckExistStudyParameter(nObjective: int, summaries: seq<(string, int)>) returns (ok: bool)
      requires DistinctNames(summaries)
      modifies this`endState
      ensures var c := StudyConflict(settings.studyName, settings.continueStudy, nObjective, DirectionsOf(summaries));
              ok == c.None? && endState == (if c.Some? then c.value else old(endState))
    {
      var studySummaryDict: map<string, int> := map[];
      for i := 0 to |summaries|
        invariant studySummaryDict == DirectionsOf(summaries[..i])
      {
        assert summaries[..i + 1][..i] == summaries[..i];
        studySummaryDict := studySummaryDict[summaries[i].0 := summaries[i].1];
      }
      assert summaries[..|summaries|] == summaries;
      if settings.studyName !in studySummaryDict {
        ok := true;
      } else {
        ok := CheckDirections(nObjective, studySummaryDict);
      }
    }

    /**
     * `SetResultValues`: for one objective, each variable's value is looked up by name among
     * the study's best parameters, given the trials `completed` so far, and reading them
     * raises ValueError while none is complete; otherwise the last evaluated parameters are
     * the result.
     */
    method SetResultValues(nObjective: int, study: Study, xTest: array<real>, completed: seq<TellRecord>)
      returns (error: Option<string>)
      modifies this`xOpt
      ensures nObjective == 1 && study.bestParamsOf(completed).None? ==> error == Some("ValueError") && xOpt == old(xOpt)
      ensures nObjective == 1 && study.bestParamsOf(completed).Some? ==>
                && error.None? && xOpt.Some? && |xOpt.value| == |variables|
                && forall i :: 0 <= i < |variables| ==>
                     xOpt.value[i] == ParamValue(study.bestParamsOf(completed).value, variables[i].nickName)
      ensures nObjective != 1 ==> error.None? && xOpt == Some(xTest[..])
    {
      error := None;
      if nObjective == 1 {
        if study.bestParamsOf(completed).None? {
          return Some("ValueError");
        }
        var best := study.bestParamsOf(completed).value;
        var opt := new real[|variables|](_ => 0.0);
        for i := 0 to |variables|
          invariant forall m :: 0 <= m < i ==> opt[m] == ParamValue(best, variables[m].nickName)
          invariant forall m :: i <= m < |variables| ==> opt[m] == 0.0
        {
          assert best[..0] == [];
          for j := 0 to |best|
            invariant forall m :: 0 <= m < i ==> opt[m] == ParamValue(best, variables[m].nickName)
            invariant forall m :: i < m < |variables| ==> opt[m] == 0.0
            invariant opt[i] == ParamValue(best[..j], variables[i].nickName)
          {
            assert best[..j + 1][..j] == best[..j];
            if best[j].0 == variables[i].nickName {
              opt[i] := best[j].1;
            }
          }
          assert best[..|best|] == best;
        }
        xOpt := Some(opt[..]);
      } else {
        xOpt := Some(xTest[..]);
      }
    }

    /** `RunGC`: the garbage-collection hook after a trial. */
    method RunGCAfterTrial(result: EvalResult)
      modifies this`gcRuns
      ensures gcRuns == old(gcRuns) + (if RunGC(settings.gcAfterTrial, |result.geometryJson|) then 1 else 0)
    {
      if !RunGC(settings.gcAfterTrial, |result.geometryJson|) {
        return;
      }
      gcRuns := gcRuns + 1;
    }

    /**
     * `SetTrialUserAttr`: the trial attributes written for a kept result, in order: the
     * geometry, the other attributes, and for human-in-the-loop runs `result_<name>` for
     * each numeric objective with its value (image objectives are skipped and do not use up
     * a value), up to the index at which the names or the values run out and it throws.
     */
    static method SetTrialUserAttr(result: EvalResult, humanInTheLoop: bool, objectiveNames: seq<string>)
      returns (attrs: seq<(string, AttrValue)>, error: Option<string>)
      ensures (attrs, error) == TrialUserAttrs(result, humanInTheLoop, objectiveNames)
    {
      var geometry: seq<(string, AttrValue)> := [];
      if |result.geometryJson| != 0 {
        geometry := [("Geometry", StringList(result.geometryJson))];
      }
      var extra: seq<(string, AttrValue)> := [];
      if result.attribute.Some? {
        extra := SetNonGeometricAttr(result.attribute.value);
      }
      var results: seq<(string, AttrValue)> := [];
      error := None;
      if |result.objectiveValues| != 0 && humanInTheLoop {
        results, error := ResultAttributes(result, objectiveNames);
      }
      attrs := geometry + extra + results;
      assert geometry + extra == FixedTrialAttrs(result);
      if |result.objectiveValues| != 0 && humanInTheLoop {
        assert (attrs, error) == TrialUserAttrs(result, humanInTheLoop, objectiveNames);
      } else {
        assert attrs == FixedTrialAttrs(result);
      }
    }

    /**
     * The human-in-the-loop part of `SetTrialUserAttr`: walking the objective names, each
     * name without the marker takes the next value, counting the image names passed over.
     * Reading a name past the end of the names, or a value past the end of the values, throws.
     */
    static method ResultAttributes(result: EvalResult, objectiveNames: seq<string>)
      returns (results: seq<(string, AttrValue)>, error: Option<string>)
      ensures (results, error) == HitlResults(result, objectiveNames)
    {
      var values := result.objectiveValues;
      var n := |values| + |result.objectiveImages|;
      ghost var stop := ResultScanEnd(objectiveNames, |values|, 0, n);
      ghost var plain: seq<string> := [];
      results, error := [], None;
      var imageCount := 0;
      var i := 0;
      while i < n
        invariant i <= n && i <= |objectiveNames|
        invariant plain == PlainNames(objectiveNames[..i])
        invariant imageCount == i - |plain| && |plain| <= |values|
        invariant ResultScanEnd(objectiveNames, |values|, i, n) == stop
        invariant results == ResultAttrs(plain, values)
      {
        if i >= |objectiveNames| {
          error := Some("IndexOutOfRangeException");
          break;
        }
        if !Contains(objectiveNames[i], HumanInTheLoopMarker) {
          if i - imageCount >= |values| {
            error := Some("IndexOutOfRangeException");
            break;
          }
          NumericNameStep(objectiveNames, values, i, n);
          var key := "result_" + objectiveNames[i];
          var value := Float(values[i - imageCount]);
          results := results + [(key, value)];
          plain := plain + [objectiveNames[i]];
        } else {
          ImageNameStep(objectiveNames, |values|, i, n);
          imageCount := imageCount + 1;
        }
        i := i + 1;
      }
      assert i == stop && (error.None? <==> i == n);
    }

    /** `SetNonGeometricAttr`: one attribute per entry of the evaluator's attribute dictionary. */
    static method SetNonGeometricAttr(attribute: seq<(string, seq<string>)>) returns (attrs: seq<(string, AttrValue)>)
      ensures attrs == NonGeometricAttr(attribute)
    {
      attrs := [];
      for k := 0 to |attribute|
        invariant attrs == NonGeometricAttr(attribute[..k])
      {
        var pair := attribute[k];
        var value := if pair.0 == "Constraint" then FloatList(pair.1) else StringList(pair.1);
        attrs := attrs + [(pair.0, value)];
      }
      assert attribute[..|attribute|] == attribute;
    }

    // ------------------------------------------------------------ the loop

    /** Fills `xTest` with the trial's suggestions, variable by variable. */
    method SuggestParameters(study: Study, trial: nat, xTest: array<real>)
      requires xTest.Length == |variables|
      modifies xTest
      ensures xTest[..] == Suggested(study, trial)
    {
      for j := 0 to |variables|
        invariant forall k :: 0 <= k < j ==> xTest[k] == SuggestOne(study, trial, variables[k])
      {
        xTest[j] := SuggestOne(study, trial, variables[j]);
      }
    }

    /**
     * The retry loop of `RunSingleOptimizeStep`: ask, suggest and evaluate until a result has
     * no NaN. The eleventh evaluation is discarded whatever it returned and the loop gives up.
     * `trial` is the last trial asked for; `xTest` holds its parameters.
     */
    method EvaluateUntilClean(study: Study, xTest: array<real>, trialNum: nat, nTrials: int)
      returns (res: EvalResult, trial: nat, clean: bool)
      requires nTrials != 0 && xTest.Length == |variables|
      modifies study`asked, xTest
      ensures var kept := StepKept(study, study.told, trialNum, nTrials, old(study.asked));
              && (clean <==> kept.Some?)
              && (clean ==> kept == Some(trial - old(study.asked)))
              && (!clean ==> trial == old(study.asked) + MaxNaNRetries)
      ensures old(study.asked) <= trial && study.asked == trial + 1
      ensures res == Attempt(study, study.told, trialNum, nTrials, trial)
      ensures clean ==> !HasNaN(res.objectiveValues)
      ensures xTest[..] == Suggested(study, trial)
    {
      var progress := Progress(trialNum, nTrials);
      trial := study.Ask();
      ghost var first := trial;
      var nullCount := 0;
      while true
        invariant 0 <= nullCount <= MaxNaNRetries
        invariant trial == first + nullCount && study.asked == trial + 1
        invariant forall t: nat :: first <= t < trial ==> NaNAt(study, study.told, trialNum, nTrials, t)
        decreases MaxNaNRetries - nullCount
      {
        SuggestParameters(study, trial, xTest);
        var pState := ProgressStateFor(study, study.told, trialNum, xTest[..]);
        res := evalFunc(pState, progress);
        if nullCount >= MaxNaNRetries {
          // "The objective function returned NaN 10 times in a row."
          return res, trial, false;
        } else if HasNaN(res.objectiveValues) {
          trial := study.Ask();
          nullCount := nullCount + 1;
        } else {
          break;
        }
      }
      assert res == Attempt(study, study.told, trialNum, nTrials, trial);
      StepKeptFirstClean(study, study.told, trialNum, nTrials, first, nullCount);
      clean := true;
    }

    /**
     * `RunSingleOptimizeStep`: evaluate until a result has no NaN (giving up, None, after
     * ten NaN results). A kept result is the first NaN-free one; its attributes are written
     * under the trial that produced it, and then it is told to the study (once, and not in
     * human-in-the-loop mode). When writing the attributes throws, the exception escapes
     * before the `tell` and the garbage-collection hook.
     */
    method RunSingleOptimizeStep(study: Study, xTest: array<real>, trialNum: nat, nTrials: int, humanInTheLoop: bool)
      returns (result: Option<EvalResult>, error: Option<string>)
      requires nTrials != 0 && xTest.Length == |variables|
      modifies this`gcRuns, study`asked, study`told, study`trialAttrs, xTest
      ensures study.asked > old(study.asked) && xTest[..] == Suggested(study, study.asked - 1)
      ensures result.None? <==> StepKept(study, old(study.told), trialNum, nTrials, old(study.asked)).None?
      ensures result.None? ==> error.None? && study.asked == old(study.asked) + MaxNaNRetries + 1
      ensures result.None? ==> study.told == old(study.told) && study.trialAttrs == old(study.trialAttrs) && gcRuns == old(gcRuns)
      ensures result.Some? ==> StepKept(study, old(study.told), trialNum, nTrials, old(study.asked)) == Some(study.asked - 1 - old(study.asked))
      ensures result.Some? ==> result.value == Attempt(study, old(study.told), trialNum, nTrials, study.asked - 1)
      ensures result.Some? ==> !HasNaN(result.value.objectiveValues)
      ensures result.Some? ==> error == RecordError(study, study.asked - 1, result.value, humanInTheLoop)
      ensures result.Some? ==> study.trialAttrs == old(study.trialAttrs)
                                 + Tagged(study.asked - 1, TrialUserAttrs(result.value, humanInTheLoop, objNickName).0)
      ensures result.Some? ==>
                study.told == old(study.told)
                              + (if humanInTheLoop || error.Some? then [] else [TellRecord(study.asked - 1, result.value.objectiveValues)])
      ensures result.Some? ==>
                gcRuns == old(gcRuns) + (if TrialUserAttrs(result.value, humanInTheLoop, objNickName).1.None?
                                            && RunGC(settings.gcAfterTrial, |result.value.geometryJson|) then 1 else 0)
    {
      var res, trial, clean := EvaluateUntilClean(study, xTest, trialNum, nTrials);
      if !clean {
        return None, None;
      }
      error := RecordTrial(study, trial, res, humanInTheLoop);
      result := Some(res);
    }

    /**
     * The exception that escapes the end of a step for a kept result: writing the attributes
     * throws first; then a failing `tell` is rethrown as ArgumentException.
     */
    function RecordError(study: Study, trial: nat, res: EvalResult, humanInTheLoop: bool): (e: Option<string>)
      ensures e.Some? <==> TrialUserAttrs(res, humanInTheLoop, objNickName).1.Some?
                           || (!humanInTheLoop && study.tellFails(trial, res.objectiveValues))
      ensures TrialUserAttrs(res, humanInTheLoop, objNickName).1.Some? ==> e == TrialUserAttrs(res, humanInTheLoop, objNickName).1
      ensures TrialUserAttrs(res, humanInTheLoop, objNickName).1.None? && e.Some? ==> e == Some("ArgumentException")
    {
      var attrsError := TrialUserAttrs(res, humanInTheLoop, objNickName).1;
      if attrsError.Some? then attrsError
      else if !humanInTheLoop && study.tellFails(trial, res.objectiveValues) then Some("ArgumentException")
      else None
    }

    /**
     * The end of `RunSingleOptimizeStep` for a kept result: write its attributes, then,
     * unless that threw, tell it (outside human-in-the-loop mode), rethrowing a failing
     * `tell` as ArgumentException, and run the collection hook in the `finally` either way.
     */
    method RecordTrial(study: Study, trial: nat, res: EvalResult, humanInTheLoop: bool) returns (error: Option<string>)
      modifies this`gcRuns, study`told, study`trialAttrs
      ensures error == RecordError(study, trial, res, humanInTheLoop)
      ensures study.trialAttrs == old(study.trialAttrs) + Tagged(trial, TrialUserAttrs(res, humanInTheLoop, objNickName).0)
      ensures study.told == old(study.told) + (if humanInTheLoop || error.Some? then [] else [TellRecord(trial, res.objectiveValues)])
      ensures gcRuns == old(gcRuns) + (if TrialUserAttrs(res, humanInTheLoop, objNickName).1.None?
                                          && RunGC(settings.gcAfterTrial, |res.geometryJson|) then 1 else 0)
    {
      var attrs;
      attrs, error := SetTrialUserAttr(res, humanInTheLoop, objNickName);
      study.SetTrialUserAttrs(trial, attrs);
      if error.Some? {
        return;
      }
      if !humanInTheLoop {
        var raised := study.Tell(trial, res.objectiveValues);
        if raised {
          error := Some("ArgumentException");
        }
      }
      RunGCAfterTrial(res);
    }

    /**
     * `CheckOptimizeComplete`: the stop rule, writing `endState` only when it stops and
     * resetting the forced-stop flag only when that flag is what stops it.
     */
    method CheckOptimizeComplete(nTrials: int, timeout: real, trialNum: int, elapsed: real) returns (done: bool)
      modifies this`endState, this`forcedStop
      ensures var d := StopDecision(nTrials, timeout, trialNum, elapsed, old(forcedStop));
              && done == d.Some?
              && endState == (if d.Some? then d.value else old(endState))
              && forcedStop == (old(forcedStop) && d != Some(StoppedByUser))
    {
      done := false;
      if trialNum >= nTrials {
        endState := AllTrialCompleted;
        done := true;
      } else if timeout > 0.0 && elapsed >= timeout {
        endState := Timeout;
        done := true;
      } else if forcedStop {
        endState := StoppedByUser;
        forcedStop := false;
        done := true;
      }
    }

    /** A stop requested from outside the loop: the UI sets the static flag. */
    method ReceiveStopRequest(requested: bool)
      modifies this`forcedStop
      ensures forcedStop == (old(forcedStop) || requested)
    {
      if requested {
        forcedStop := true;
      }
    }

    /**
     * One pass of the loop of `RunOptimize` after a step that kept a result: receive a stop
     * request, check the stop rule, and run a step unless it fired. Outside human-in-the-loop
     * mode writing the attributes cannot throw, so the only exception is a failing `tell`.
     */
    method OptimizePass(study: Study, xTest: array<real>, nTrials: int, timeout: real, trialNum: nat,
                        elapsed: real, requested: bool)
      returns (done: bool, stepResult: Option<EvalResult>, error: Option<string>)
      requires xTest.Length == |variables|
      modifies this`endState, this`forcedStop, this`gcRuns, study`asked, study`told, study`trialAttrs, xTest
      ensures var d := StopDecision(nTrials, timeout, trialNum, elapsed, old(forcedStop) || requested);
              && done == d.Some?
              && endState == (if d.Some? then d.value else old(endState))
              && forcedStop == ((old(forcedStop) || requested) && d != Some(StoppedByUser))
      ensures done || stepResult.None? ==> study.told == old(study.told) && error.None?
      ensures done ==> study.asked == old(study.asked) && xTest[..] == old(xTest[..])
      ensures !done ==> study.asked > old(study.asked) && xTest[..] == Suggested(study, study.asked - 1)
      ensures !done && stepResult.Some? ==> !HasNaN(stepResult.value.objectiveValues)
      ensures !done && stepResult.Some? ==>
                error == (if study.tellFails(study.asked - 1, stepResult.value.objectiveValues)
                          then Some("ArgumentException") else None)
      ensures !done && stepResult.Some? ==>
                study.told == old(study.told)
                              + (if error.Some? then [] else [TellRecord(study.asked - 1, stepResult.value.objectiveValues)])
    {
      ReceiveStopRequest(requested);
      done := CheckOptimizeComplete(nTrials, timeout, trialNum, elapsed);
      if done {
        return done, None, None;
      }
      stepResult, error := RunSingleOptimizeStep(study, xTest, trialNum, nTrials, false);
      if stepResult.Some? {
        assert TrialUserAttrs(stepResult.value, false, objNickName).1.None?;
      }
    }

    /** `xTest` after a run: zeros while nothing was asked, else the last asked trial's parameters. */
    function LastParams(study: Study, asked0: nat): (xs: seq<real>)
      reads study`asked
      ensures |xs| == |variables|
    {
      if study.asked <= asked0 then seq(|variables|, _ => 0.0) else Suggested(study, study.asked - 1)
    }

    /**
     * `RunOptimize`: enqueue the pre-seeded points, then check-and-step until the stop
     * rule fires, a step gives up or a `tell` fails. `trialNum` is the number of steps that
     * returned; check k is the one made before step k. An enqueueing exception escapes before
     * any step; a failing `tell` escapes as ArgumentException from the step that made it.
     */
    method RunOptimize(study: Study, nTrials: int, timeout: real, elapsedAt: nat -> real, requests: nat -> bool)
      returns (xTest: array<real>, result: Option<EvalResult>, trialNum: nat, error: Option<string>)
      modifies this`endState, this`forcedStop, this`gcRuns, study`asked, study`told, study`trialAttrs, study`enqueued
      ensures fresh(xTest) && xTest.Length == |variables|
      ensures EnqueueError(fishEgg).Some? ==> error == EnqueueError(fishEgg)
      ensures study.enqueued == old(study.enqueued) + EnqueuedPoints(fishEgg)
      ensures EnqueueError(fishEgg).Some? ==> trialNum == 0 && study.asked == old(study.asked) && endState == old(endState)
      ensures EnqueueError(fishEgg).None? && error.Some? ==>
                && error == Some("ArgumentException") && result.Some? && endState == old(endState)
                && RunDecision(nTrials, timeout, elapsedAt, requests, old(forcedStop), trialNum).None?
                && study.asked > old(study.asked) && study.tellFails(study.asked - 1, result.value.objectiveValues)
      ensures xTest[..] == LastParams(study, old(study.asked))
      ensures forall k: nat :: k < trialNum ==> RunDecision(nTrials, timeout, elapsedAt, requests, old(forcedStop), k).None?
      ensures result.None? ==> error.None? && trialNum > 0 && endState == old(endState)
      ensures result.None? ==> forcedStop == FlagBefore(old(forcedStop), requests, trialNum)
      ensures error.None? && result.Some? ==> var d := RunDecision(nTrials, timeout, elapsedAt, requests, old(forcedStop), trialNum);
                d.Some? && endState == d.value
                && forcedStop == (FlagBefore(old(forcedStop), requests, trialNum + 1) && d != Some(StoppedByUser))
      ensures |study.told| == |old(study.told)| + (if result.None? then trialNum - 1 else trialNum)
      ensures study.told[..|old(study.told)|] == old(study.told)
      ensures forall i :: |old(study.told)| <= i < |study.told| ==> !HasNaN(study.told[i].values)
      ensures error.None? && result.Some? && timeout <= 0.0 && !old(forcedStop) && (forall j: nat :: !requests(j)) ==>
                trialNum == (if nTrials > 0 then nTrials else 0) && endState == AllTrialCompleted
    {
      xTest := new real[|variables|](_ => 0.0);
      result := Some(EmptyResult);
      trialNum := 0;
      ghost var asked0 := study.asked;
      assert xTest[..] == LastParams(study, asked0);
      error := EnqueueTrial(study, fishEgg);
      if error.Some? {
        return;
      }
      result, trialNum, error := OptimizeLoop(study, xTest, nTrials, timeout, elapsedAt, requests, asked0);
    }

    /**
     * The `while (true)` loop of `RunOptimize`, from its first check. On a failing `tell`
     * `result` is the result that was being told.
     */
    method OptimizeLoop(study: Study, xTest: array<real>, nTrials: int, timeout: real, elapsedAt: nat -> real,
                        requests: nat -> bool, ghost asked0: nat)
      returns (result: Option<EvalResult>, trialNum: nat, error: Option<string>)
      requires xTest.Length == |variables| && study.asked >= asked0 && xTest[..] == LastParams(study, asked0)
      modifies this`endState, this`forcedStop, this`gcRuns, study`asked, study`told, study`trialAttrs, xTest
      ensures xTest[..] == LastParams(study, asked0)
      ensures forall k: nat :: k < trialNum ==> RunDecision(nTrials, timeout, elapsedAt, requests, old(forcedStop), k).None?
      ensures error.Some? ==>
                && error == Some("ArgumentException") && result.Some? && endState == old(endState)
                && RunDecision(nTrials, timeout, elapsedAt, requests, old(forcedStop), trialNum).None?
                && study.asked > asked0 && study.tellFails(study.asked - 1, result.value.objectiveValues)
      ensures result.None? ==> error.None? && trialNum > 0 && endState == old(endState)
      ensures result.None? ==> forcedStop == FlagBefore(old(forcedStop), requests, trialNum)
      ensures error.None? && result.Some? ==> var d := RunDecision(nTrials, timeout, elapsedAt, requests, old(forcedStop), trialNum);
                d.Some? && endState == d.value
                && forcedStop == (FlagBefore(old(forcedStop), requests, trialNum + 1) && d != Some(StoppedByUser))
      ensures |study.told| == |old(study.told)| + (if result.None? then trialNum - 1 else trialNum)
      ensures study.told[..|old(study.told)|] == old(study.told)
      ensures forall i :: |old(study.told)| <= i < |study.told| ==> !HasNaN(study.told[i].values)
      ensures error.None? && result.Some? && timeout <= 0.0 && !old(forcedStop) && (forall j: nat :: !requests(j)) ==>
                trialNum == (if nTrials > 0 then nTrials else 0) && endState == AllTrialCompleted
    {
      result := Some(EmptyResult);
      trialNum := 0;
      error := None;
      ghost var flag0 := forcedStop;
      while true
        invariant study.asked >= asked0 && xTest[..] == LastParams(study, asked0)
        invariant forall k: nat :: k < trialNum ==> RunDecision(nTrials, timeout, elapsedAt, requests, flag0, k).None?
        invariant endState == old(endState)
        invariant forcedStop == FlagBefore(flag0, requests, trialNum)
        invariant result.None? ==> trialNum > 0
        invariant |study.told| == |old(study.told)| + (if result.None? then trialNum - 1 else trialNum)
        invariant study.told[..|old(study.told)|] == old(study.told)
        invariant forall i :: |old(study.told)| <= i < |study.told| ==> !HasNaN(study.told[i].values)
        invariant error.None?
        decreases nTrials - trialNum
      {
        if result.None? {
          break;
        }
        ghost var toldBefore := study.told;
        var done, stepResult, stepError := OptimizePass(study, xTest, nTrials, timeout, trialNum, elapsedAt(trialNum),
                                                        requests(trialNum));
        if done {
          break;
        }
        if stepError.Some? {
          result, error := stepResult, stepError;
          break;
        }
        assert study.told[..|toldBefore|] == toldBefore;
        result := stepResult;
        trialNum := trialNum + 1;
      }
      if error.None? && result.Some? && timeout <= 0.0 && !flag0 && (forall j: nat :: !requests(j)) {
        UninterruptedRunCompletesAllTrials(nTrials, timeout, elapsedAt, requests, flag0);
        var m := if nTrials > 0 then nTrials else 0;
        assert trialNum <= m;
      }
    }

    /**
     * One pass of the `while (true)` loop of `RunHumanInTheLoopOptimize`: stop when the last
     * step gave up or the stop rule fires; poll again, changing nothing, while `running`
     * trials already wait for a person; otherwise run a step (never telling the study),
     * whose attribute-writing exception is returned as `error`.
     */
    method HumanInTheLoopPass(study: Study, xTest: array<real>, nTrials: int, timeout: real, nBatch: int,
                              trialNum: nat, result: Option<EvalResult>, elapsed: real, requested: bool, running: int)
      returns (stop: bool, newResult: Option<EvalResult>, newTrialNum: nat, error: Option<string>)
      requires xTest.Length == |variables|
      modifies this`endState, this`forcedStop, this`gcRuns, study`asked, study`told, study`trialAttrs, xTest
      ensures study.told == old(study.told)
      ensures result.None? ==> stop && newResult == result && newTrialNum == trialNum && error.None?
      ensures result.None? ==> unchanged(this) && unchanged(study) && unchanged(xTest)
      ensures var d := StopDecision(nTrials, timeout, trialNum, elapsed, old(forcedStop) || requested);
        result.Some? && d.Some? ==>
          && stop && endState == d.value && newTrialNum == trialNum && newResult == result && error.None?
          && forcedStop == ((old(forcedStop) || requested) && d != Some(StoppedByUser))
          && unchanged(study) && unchanged(xTest) && gcRuns == old(gcRuns)
      ensures var d := StopDecision(nTrials, timeout, trialNum, elapsed, old(forcedStop) || requested);
        result.Some? && d.None? && running >= nBatch ==>
          && !stop && newTrialNum == trialNum && newResult == result && error.None?
          && unchanged(this) && unchanged(study) && unchanged(xTest)
      ensures var d := StopDecision(nTrials, timeout, trialNum, elapsed, old(forcedStop) || requested);
        result.Some? && d.None? && running < nBatch ==>
          && !stop && newTrialNum == trialNum + 1 && endState == old(endState)
          && !forcedStop && study.asked > old(study.asked) && xTest[..] == Suggested(study, study.asked - 1)
          && (newResult.Some? <==> StepKept(study, old(study.told), trialNum, nTrials, old(study.asked)).Some?)
          && error == (if newResult.Some? then TrialUserAttrs(newResult.value, true, objNickName).1 else None)
    {
      stop, newResult, newTrialNum, error := false, result, trialNum, None;
      if result.None? {
        return true, result, trialNum, None;
      }
      ReceiveStopRequest(requested);
      var done := CheckOptimizeComplete(nTrials, timeout, trialNum, elapsed);
      if done {
        return true, result, trialNum, None;
      }
      if running >= nBatch {
        return false, result, trialNum, None;
      }
      newResult, error := RunSingleOptimizeStep(study, xTest, trialNum, nTrials, true);
      newTrialNum := trialNum + 1;
    }

    /**
     * `RunHumanInTheLoopOptimize`, for at most `maxPolls` passes (running-trial count
     * `runningAt(k)` at pass k): in this mode nothing is ever told to the study. An
     * exception from enqueueing or from writing a step's attributes ends the run.
     */
    method RunHumanInTheLoopOptimize(study: Study, nTrials: int, timeout: real, nBatch: int,
                                     elapsedAt: nat -> real, requests: nat -> bool, runningAt: nat -> int, maxPolls: nat)
      returns (xTest: array<real>, result: Option<EvalResult>, trialNum: nat, error: Option<string>)
      modifies this`endState, this`forcedStop, this`gcRuns, study`asked, study`told, study`trialAttrs, study`enqueued
      ensures fresh(xTest) && xTest.Length == |variables|
      ensures study.told == old(study.told)
      ensures study.enqueued == old(study.enqueued) + EnqueuedPoints(fishEgg)
      ensures EnqueueError(fishEgg).Some? ==> error == EnqueueError(fishEgg) && trialNum == 0 && study.asked == old(study.asked)
      ensures EnqueueError(fishEgg).None? && error.Some? ==>
                error == Some("IndexOutOfRangeException") && result.Some?
                && |result.value.objectiveValues| != 0 && !FitsObjectives(result.value, objNickName)
      ensures error.Some? || result.None? ==> endState == old(endState)
      ensures xTest[..] == LastParams(study, old(study.asked))
      ensures trialNum <= maxPolls
      ensures endState == old(endState) || endState in {AllTrialCompleted, Timeout, StoppedByUser}
    {
      xTest := new real[|variables|](_ => 0.0);
      result := Some(EmptyResult);
      trialNum := 0;
      ghost var asked0 := study.asked;
      assert xTest[..] == LastParams(study, asked0);
      error := EnqueueTrial(study, fishEgg);
      if error.Some? {
        return;
      }
      result, trialNum, error := HumanInTheLoopLoop(study, xTest, nTrials, timeout, nBatch, elapsedAt, requests,
                                                    runningAt, maxPolls, asked0);
    }

    /** The `while (true)` loop of `RunHumanInTheLoopOptimize`, for at most `maxPolls` passes. */
    method HumanInTheLoopLoop(study: Study, xTest: array<real>, nTrials: int, timeout: real, nBatch: int,
                              elapsedAt: nat -> real, requests: nat -> bool, runningAt: nat -> int, maxPolls: nat,
                              ghost asked0: nat)
      returns (result: Option<EvalResult>, trialNum: nat, error: Option<string>)
      requires xTest.Length == |variables| && study.asked >= asked0 && xTest[..] == LastParams(study, asked0)
      modifies this`endState, this`forcedStop, this`gcRuns, study`asked, study`told, study`trialAttrs, xTest
      ensures study.told == old(study.told)
      ensures error.Some? ==>
                error == Some("IndexOutOfRangeException") && result.Some?
                && |result.value.objectiveValues| != 0 && !FitsObjectives(result.value, objNickName)
      ensures error.Some? || result.None? ==> endState == old(endState)
      ensures xTest[..] == LastParams(study, asked0)
      ensures trialNum <= maxPolls
      ensures endState == old(endState) || endState in {AllTrialCompleted, Timeout, StoppedByUser}
    {
      result := Some(EmptyResult);
      trialNum := 0;
      error := None;
      var poll := 0;
      while poll < maxPolls
        invariant study.told == old(study.told)
        invariant study.asked >= asked0 && xTest[..] == LastParams(study, asked0)
        invariant trialNum <= poll <= maxPolls
        invariant endState == old(endState) && error.None?
      {
        var stop;
        stop, result, trialNum, error := HumanInTheLoopPass(study, xTest, nTrials, timeout, nBatch, trialNum, result,
                                                            elapsedAt(poll), requests(poll), runningAt(poll));
        if stop || error.Some? {
          break;
        }
        poll := poll + 1;
      }
    }

    /**
     * The trials complete when the result is read: those told by the run and, in a
     * human-in-the-loop run, those a person completed.
     */
    function CompletedTrials(study: Study, completedByHand: seq<TellRecord>): seq<TellRecord>
      reads study`told
    {
      study.told + (if settings.isHumanInTheLoop then completedByHand else [])
    }

    /** The study is created and run: the sampler type is known and the resume check passes. */
    predicate Proceeds(storedStudies: seq<(string, int)>)
    {
      && SamplerFor(settings.selectSampler).Some?
      && StudyConflict(settings.studyName, settings.continueStudy, |objNickName|, DirectionsOf(storedStudies)).None?
    }

    /**
     * `Solve`: reset the end state to Error and the flag to false, choose the sampler, check
     * the resume precondition, record the variable and metric names, run the loop and
     * extract the result. `storedStudies` lists the storage's studies as (name, number of
     * directions); `completedByHand` are the trials a person completes through the dashboard
     * during a human-in-the-loop run. `error` is the exception that escapes, if any;
     * `gaveUp` says a step gave up after ten NaN results.
     */
    method Solve(study: Study, storedStudies: seq<(string, int)>, elapsedAt: nat -> real, requests: nat -> bool,
                 runningAt: nat -> int, maxPolls: nat, completedByHand: seq<TellRecord>)
      returns (error: Option<string>, gaveUp: bool)
      requires DistinctNames(storedStudies)
      modifies this, study
      ensures SamplerFor(settings.selectSampler).None? ==>
                error == Some("Unknown sampler type") && endState == Error && unchanged(study) && xOpt == old(xOpt)
      ensures var c := StudyConflict(settings.studyName, settings.continueStudy, |objNickName|, DirectionsOf(storedStudies));
              SamplerFor(settings.selectSampler).Some? && c.Some? ==>
                error.None? && endState == c.value && unchanged(study) && xOpt == old(xOpt)
      ensures Proceeds(storedStudies) && variables == [] ==>
                error == Some("ArgumentOutOfRangeException") && endState == Error && unchanged(study) && xOpt == old(xOpt)
      ensures Proceeds(storedStudies) && variables != [] ==>
                && study.userAttrs == old(study.userAttrs)[VariableNamesKey := Join(NickNames(variables), ",")]
                && study.metricNames == objNickName
      ensures Proceeds(storedStudies) && variables != [] && EnqueueError(fishEgg).Some? ==> error == EnqueueError(fishEgg)
      ensures Proceeds(storedStudies) && variables != [] && EnqueueError(fishEgg).None? ==>
                error.None? || error == Some("ValueError")
                || error == Some(if settings.isHumanInTheLoop then "IndexOutOfRangeException" else "ArgumentException")
      ensures error == Some("ValueError") ==> |objNickName| == 1 && study.bestParamsOf(CompletedTrials(study, completedByHand)).None?
      ensures (Proceeds(storedStudies) && variables != [] && |objNickName| == 1 &&
               study.bestParamsOf(CompletedTrials(study, completedByHand)).None?) ==> error.Some?
      ensures error.Some? ==> xOpt == old(xOpt)
      ensures error.Some? && error != Some("ValueError") ==> endState == Error
      ensures gaveUp ==> endState == Error && (error.None? || error == Some("ValueError"))
      ensures Proceeds(storedStudies) && error.None? && |objNickName| == 1 ==>
                && study.bestParamsOf(CompletedTrials(study, completedByHand)).Some?
                && xOpt.Some? && |xOpt.value| == |variables|
                && forall i :: 0 <= i < |variables| ==>
                     xOpt.value[i] == ParamValue(study.bestParamsOf(CompletedTrials(study, completedByHand)).value, variables[i].nickName)
      ensures Proceeds(storedStudies) && error.None? && |objNickName| != 1 ==> xOpt == Some(LastParams(study, old(study.asked)))
      ensures |study.told| >= |old(study.told)| && study.told[..|old(study.told)|] == old(study.told)
      ensures forall i :: |old(study.told)| <= i < |study.told| ==> !HasNaN(study.told[i].values)
      ensures settings.isHumanInTheLoop ==> study.told == old(study.told)
      ensures !settings.isHumanInTheLoop && settings.timeout <= 0.0 && (forall j: nat :: !requests(j)) ==>
                (endState == AllTrialCompleted ==>
                   |study.told| == |old(study.told)| + (if settings.numberOfTrials > 0 then settings.numberOfTrials else 0))
    {
      endState := Error;
      forcedStop := false;
      gaveUp := false;
      var samplerType := settings.selectSampler;
      var directions := SetDirectionValues(|objNickName|);
      var sampler := SetSamplerSettings(samplerType, hasConstraints);
      if sampler.Failure? {
        return Some(sampler.error), false;
      }
      var proceed := CheckExistStudyParameter(|objNickName|, storedStudies);
      error := None;
      if proceed {
        // `create_study(directions, sampler, storage, study_name, load_if_exists)` yields `study`.
        error, gaveUp := OptimizeStudy(study, elapsedAt, requests, runningAt, maxPolls, completedByHand);
      }
    }

    /**
     * The rest of `Solve` once the study exists: record the variable and metric names, run
     * the loop chosen by the settings and extract the result, which after every way the
     * loop can end is the last evaluated parameters (or, for one objective, the study's best).
     */
    method OptimizeStudy(study: Study, elapsedAt: nat -> real, requests: nat -> bool, runningAt: nat -> int, maxPolls: nat,
                         completedByHand: seq<TellRecord>)
      returns (error: Option<string>, gaveUp: bool)
      requires endState == Error && !forcedStop
      modifies this`endState, this`forcedStop, this`gcRuns, this`xOpt
      modifies study`asked, study`told, study`trialAttrs, study`enqueued, study`userAttrs, study`metricNames
      ensures variables == [] ==>
                error == Some("ArgumentOutOfRangeException") && endState == Error && unchanged(study) && xOpt == old(xOpt)
      ensures variables != [] ==>
                && study.userAttrs == old(study.userAttrs)[VariableNamesKey := Join(NickNames(variables), ",")]
                && study.metricNames == objNickName
      ensures variables != [] && EnqueueError(fishEgg).Some? ==> error == EnqueueError(fishEgg)
      ensures variables != [] && EnqueueError(fishEgg).None? ==>
                error.None? || error == Some("ValueError")
                || error == Some(if settings.isHumanInTheLoop then "IndexOutOfRangeException" else "ArgumentException")
      ensures error == Some("ValueError") ==> |objNickName| == 1 && study.bestParamsOf(CompletedTrials(study, completedByHand)).None?
      ensures variables != [] && |objNickName| == 1 && study.bestParamsOf(CompletedTrials(study, completedByHand)).None? ==>
                error.Some?
      ensures error.Some? ==> xOpt == old(xOpt)
      ensures error.Some? && error != Some("ValueError") ==> endState == Error
      ensures gaveUp ==> endState == Error && (error.None? || error == Some("ValueError"))
      ensures error.None? && |objNickName| == 1 ==>
                && study.bestParamsOf(CompletedTrials(study, completedByHand)).Some?
                && xOpt.Some? && |xOpt.value| == |variables|
                && forall i :: 0 <= i < |variables| ==>
                     xOpt.value[i] == ParamValue(study.bestParamsOf(CompletedTrials(study, completedByHand)).value, variables[i].nickName)
      ensures error.None? && |objNickName| != 1 ==> xOpt == Some(LastParams(study, old(study.asked)))
      ensures |study.told| >= |old(study.told)| && study.told[..|old(study.told)|] == old(study.told)
      ensures forall i :: |old(study.told)| <= i < |study.told| ==> !HasNaN(study.told[i].values)
      ensures settings.isHumanInTheLoop ==> study.told == old(study.told)
      ensures !settings.isHumanInTheLoop && settings.timeout <= 0.0 && (forall j: nat :: !requests(j)) ==>
                (endState == AllTrialCompleted ==>
                   |study.told| == |old(study.told)| + (if settings.numberOfTrials > 0 then settings.numberOfTrials else 0))
    {
      var nTrials := settings.numberOfTrials;
      var timeout := if settings.timeout <= 0.0 then -1.0 else settings.timeout;
      var variableNames := NicknameToAttr(NickNames(variables));
      if variableNames.Failure? {
        return Some(variableNames.error), false;
      }
      study.SetUserAttr(VariableNamesKey, variableNames.value);
      study.SetMetricNames(objNickName);
      var xTest, result, trialNum;
      if settings.isHumanInTheLoop {
        xTest, result, trialNum, error := RunHumanInTheLoopOptimize(study, nTrials, timeout, HumanInTheLoopBatch,
                                                                    elapsedAt, requests, runningAt, maxPolls);
      } else {
        xTest, result, trialNum, error := RunOptimize(study, nTrials, timeout, elapsedAt, requests);
      }
      if error.Some? {
        return error, false;
      }
      gaveUp := result.None?;
      error := SetResultValues(|objNickName|, study, xTest, CompletedTrials(study, completedByHand));
    }
  }

  /** Scanning from `from`, FirstClean stops at the first NaN-free flag within the retry bound. */
  lemma {:induction false} FirstCleanFrom(isNaN: seq<bool>, from: nat, k: nat)
    requires from <= k < MaxNaNRetries && k < |isNaN| && !isNaN[k]
    requires forall j :: from <= j < k ==> isNaN[j]
    ensures FirstClean(isNaN, from) == Some(k)
    decreases k - from
  {
    if from < k {
      FirstCleanFrom(isNaN, from + 1, k);
    }
  }
}
