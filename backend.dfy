/**
 * The Optuna study as the orchestrator sees it: a narrow ask/tell interface.
 * The sampling algorithms behind it are not modelled; what the study suggests, which
 * trials it reports as best and the hypervolume it computes are fixed functions
 * chosen when the study is created, and so is which `tell` calls raise.
 */
module Backend {
  import opened Wrappers

  /** A .NET `double` as far as the core cares: either NaN or an ordinary number. */
  datatype Double = NaN | Num(value: real)

  /** `values.Contains(double.NaN)`. */
  predicate HasNaN(values: seq<Double>)
  {
    NaN in values
  }

  /** A decision variable of the optimization (Tunny's `Variable`). */
  datatype Variable = Variable(nickName: string, lowerBond: real, upperBond: real, isInteger: bool, epsilon: real)

  /** One `study.tell(trial, values)` call. */
  datatype TellRecord = TellRecord(trial: nat, values: seq<Double>)

  /** A value passed to `trial.set_user_attr`. */
  datatype AttrValue =
    | StringList(strings: seq<string>)
    | FloatList(texts: seq<string>)  // the strings the source parses as doubles
    | Float(number: Double)

  /** One `trial.set_user_attr(key, value)` call on trial `trial`. */
  datatype TrialAttr = TrialAttr(trial: nat, key: string, value: AttrValue)

  /** The records that `set_user_attr(key, value)` on trial `trial` for each pair in turn leaves behind. */
  function Tagged(trial: nat, attrs: seq<(string, AttrValue)>): (r: seq<TrialAttr>)
    ensures |r| == |attrs|
    ensures forall k :: 0 <= k < |attrs| ==> r[k] == TrialAttr(trial, attrs[k].0, attrs[k].1)
  {
    seq(|attrs|, k requires 0 <= k < |attrs| => TrialAttr(trial, attrs[k].0, attrs[k].1))
  }

  class Study {
    /** `trial.suggest_int(name, low, high, step)` for trial id and variable. */
    const suggestInt: (nat, Variable) -> int
    /** `trial.suggest_float(name, low, high, step)` for trial id and variable. */
    const suggestFloat: (nat, Variable) -> real
    /** The objective values of `study.best_trials`, given what has been told so far. */
    const bestTrialsOf: seq<TellRecord> -> seq<seq<Double>>
    /** `Hypervolume.Compute2dHypervolumeRatio(study)`, given what has been told so far. */
    const hypervolumeOf: seq<TellRecord> -> real
    /**
     * `study.best_params` as key/value pairs in the study's own order, given the trials
     * completed so far; None where Optuna raises ValueError because no trial is complete.
     */
    const bestParamsOf: seq<TellRecord> -> Option<seq<(string, real)>>
    /** Whether `study.tell(trial, values)` raises (an unknown or finished trial, values it rejects). */
    const tellFails: (nat, seq<Double>) -> bool

    /** Number of `ask` calls so far; trial ids are handed out as 0, 1, 2, ... */
    var asked: nat
    /** Every `tell` call, in order. */
    var told: seq<TellRecord>
    /** Every `enqueue_trial(params, skip_if_exists: true)` call, in order. */
    var enqueued: seq<map<string, real>>
    /** `study.set_user_attr` calls. */
    var userAttrs: map<string, string>
    /** `study.set_metric_names`. */
    var metricNames: seq<string>
    /** Every `trial.set_user_attr` call, in order. */
    var trialAttrs: seq<TrialAttr>

    constructor (
      suggestInt: (nat, Variable) -> int, suggestFloat: (nat, Variable) -> real,
      bestTrialsOf: seq<TellRecord> -> seq<seq<Double>>, hypervolumeOf: seq<TellRecord> -> real,
      bestParamsOf: seq<TellRecord> -> Option<seq<(string, real)>>, tellFails: (nat, seq<Double>) -> bool)
      ensures this.suggestInt == suggestInt && this.suggestFloat == suggestFloat
      ensures this.bestTrialsOf == bestTrialsOf && this.hypervolumeOf == hypervolumeOf
      ensures this.bestParamsOf == bestParamsOf && this.tellFails == tellFails
      ensures asked == 0 && told == [] && enqueued == [] && userAttrs == map[]
      ensures metricNames == [] && trialAttrs == []
    {
      this.suggestInt, this.suggestFloat := suggestInt, suggestFloat;
      this.bestTrialsOf, this.hypervolumeOf, this.bestParamsOf := bestTrialsOf, hypervolumeOf, bestParamsOf;
      this.tellFails := tellFails;
      asked, told, enqueued, userAttrs, metricNames, trialAttrs := 0, [], [], map[], [], [];
    }

    /** `study.ask()`: a trial id never handed out before. */
    method Ask() returns (trial: nat)
      modifies this`asked
      ensures trial == old(asked) && asked == old(asked) + 1
    {
      trial := asked;
      asked := asked + 1;
    }

    /** `study.tell(trial, values)`: recorded unless it raises, which `raised` reports. */
    method Tell(trial: nat, values: seq<Double>) returns (raised: bool)
      modifies this`told
      ensures raised == tellFails(trial, values)
      ensures told == old(told) + (if raised then [] else [TellRecord(trial, values)])
    {
      raised := tellFails(trial, values);
      if !raised {
        told := told + [TellRecord(trial, values)];
      }
    }

    /** `study.enqueue_trial(params, skip_if_exists: true)`; skipping a known point is the study's business. */
    method EnqueueTrial(params: map<string, real>)
      modifies this`enqueued
      ensures enqueued == old(enqueued) + [params]
    {
      enqueued := enqueued + [params];
    }

    /** `study.set_user_attr(key, value)`. */
    method SetUserAttr(key: string, value: string)
      modifies this`userAttrs
      ensures userAttrs == old(userAttrs)[key := value]
    {
      userAttrs := userAttrs[key := value];
    }

    /** `study.set_metric_names(names)`. */
    method SetMetricNames(names: seq<string>)
      modifies this`metricNames
      ensures metricNames == names
    {
      metricNames := names;
    }

    /** `trial.set_user_attr(key, value)` for each pair, in order. */
    method SetTrialUserAttrs(trial: nat, attrs: seq<(string, AttrValue)>)
      modifies this`trialAttrs
      ensures trialAttrs == old(trialAttrs) + Tagged(trial, attrs)
    {
      trialAttrs := trialAttrs + Tagged(trial, attrs);
    }
  }
}
