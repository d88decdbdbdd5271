/**
 * BayesOpt's bridge to the Grasshopper canvas (`BayesOpt/Util/GrasshopperInOut.cs`):
 * it collects the number sliders wired to the component's first input as variables,
 * writes optimizer parameters back into those sliders, and reads the numbers in the
 * parameters wired to its second input as objective values.
 *
 * Sliders and objective parameters are objects the canvas also holds, so they are
 * classes here: setting a slider's value is seen by everyone who holds that slider.
 */
module GrasshopperIO {
  import opened Wrappers
  import Backend
  import Int32

  /** `Grasshopper.GUI.Base.GH_SliderAccuracy`. */
  datatype SliderAccuracy = Float | Integer | Even | Odd

  /** A document object's `InstanceGuid`. */
  type Guid = nat

  /** `GH_NumberSlider`: its accuracy type and range are fixed, its value is set by `SetSliderValue`. */
  class NumberSlider {
    const accuracy: SliderAccuracy
    const minimum: real
    const maximum: real
    var value: real

    constructor (accuracy: SliderAccuracy, minimum: real, maximum: real, value: real)
      ensures this.accuracy == accuracy && this.minimum == minimum && this.maximum == maximum
      ensures this.value == value
    {
      this.accuracy, this.minimum, this.maximum, this.value := accuracy, minimum, maximum, value;
    }

    /** `SetSliderValue(val)`. */
    method SetSliderValue(val: real)
      modifies this`value
      ensures value == val
    {
      value := val;
    }
  }

  /** What `_document.FindObject(guid, true)` can find. */
  datatype DocObject = SliderObject(slider: NumberSlider) | OtherObject

  /** An item of a parameter's volatile data (`IGH_Goo`). */
  datatype Goo = GhNumber(number: Backend.Double) | OtherGoo

  /** An objective parameter (`IGH_Param`): its volatile data, flattened, is updated by each solution. */
  class Param {
    var data: seq<Goo>

    constructor (data: seq<Goo>)
      ensures this.data == data
    {
      this.data := data;
    }
  }

  /** BayesOpt's `Variable(lowerBond, upperBond, isInteger)`. */
  datatype Variable = Variable(lowerBond: real, upperBond: real, isInteger: bool)

  /** Truncation toward zero, as C#'s cast of a decimal to an integer discards the fraction. */
  function TruncToInt(x: real): (t: int)
    ensures 0.0 <= x ==> t as real <= x < t as real + 1.0
    ensures x < 0.0 ==> t as real - 1.0 < x <= t as real
  {
    if x >= 0.0 then x.Floor else -((-x).Floor)
  }

  /** `(int)x` on a decimal: the truncated value, or an OverflowException (None) outside the `int` range. */
  function Int32Cast(x: real): (r: Option<int>)
    ensures r.Some? <==> Int32.InRange(TruncToInt(x))
    ensures r.Some? ==> r.value == TruncToInt(x)
  {
    var t := TruncToInt(x);
    if Int32.InRange(t) then Some(t) else None
  }

  /** The variable `SetSliderValues()` derives from a slider's type and range. */
  function VariableFor(accuracy: SliderAccuracy, minimum: real, maximum: real): (v: Variable)
    ensures v.isInteger <==> accuracy != Float
    ensures accuracy == Even ==> v.lowerBond * 2.0 == minimum && v.upperBond * 2.0 == maximum
    ensures accuracy == Odd ==> v.lowerBond * 2.0 + 1.0 == minimum && v.upperBond * 2.0 + 1.0 == maximum
    ensures accuracy in {Integer, Float} ==> v.lowerBond == minimum && v.upperBond == maximum
  {
    match accuracy
    case Even => Variable(minimum / 2.0, maximum / 2.0, true)
    case Odd => Variable((minimum - 1.0) / 2.0, (maximum - 1.0) / 2.0, true)
    case Integer => Variable(minimum, maximum, true)
    case Float => Variable(minimum, maximum, false)
  }

  /**
   * The value `SetSliderValues(parameters)` writes into a slider for parameter `p`, or None
   * when the cast to `int` throws: `(int)p * 2` for Even, `(int)(p * 2) + 1` for Odd,
   * `(int)p` for Integer, `p` itself otherwise.
   */
  function SliderValueFor(accuracy: SliderAccuracy, p: real): (r: Option<real>)
    ensures accuracy == Float ==> r == Some(p)
    ensures accuracy == Integer ==> (r.Some? <==> Int32Cast(p).Some?)
    ensures accuracy == Even ==> (r.Some? <==> Int32Cast(p).Some?)
    ensures accuracy == Odd ==> (r.Some? <==> Int32Cast(p * 2.0).Some?)
  {
    match accuracy
    case Even => (match Int32Cast(p) case Some(t) => Some(Int32.Wrap(t * 2) as real) case None => None)
    case Odd => (match Int32Cast(p * 2.0) case Some(t) => Some(Int32.Wrap(t + 1) as real) case None => None)
    case Integer => (match Int32Cast(p) case Some(t) => Some(t as real) case None => None)
    case Float => Some(p)
  }

  /** An even slider value round-trips through its halved variable. */
  lemma EvenSliderRoundTrip(v: int)
    requires v % 2 == 0 && Int32.Min <= v <= Int32.Max
    ensures SliderValueFor(Even, v as real / 2.0) == Some(v as real)
  {
    assert v as real / 2.0 == (v / 2) as real;
    assert TruncToInt((v / 2) as real) == v / 2;
  }

  /** An odd slider value round-trips through its variable `(v - 1) / 2`. */
  lemma OddSliderRoundTrip(v: int)
    requires v % 2 == 1 && Int32.Min <= v <= Int32.Max
    ensures SliderValueFor(Odd, (v - 1) as real / 2.0) == Some(v as real)
  {
    assert (v - 1) as real / 2.0 * 2.0 == (v - 1) as real;
    assert TruncToInt((v - 1) as real) == v - 1;
  }

  /** An integer slider value round-trips unchanged. */
  lemma IntegerSliderRoundTrip(v: int)
    requires Int32.Min <= v <= Int32.Max
    ensures SliderValueFor(Integer, v as real) == Some(v as real)
  {
    assert TruncToInt(v as real) == v;
  }

  /**
   * An integer parameter within the bounds of a slider's variable is written back as a
   * value within the slider's range (for Even and Odd, when doubling it stays in the `int` range).
   */
  lemma {:induction false} SliderValueWithinRange(accuracy: SliderAccuracy, minimum: real, maximum: real, k: int)
    requires accuracy != Float ==> Int32.Min <= 2 * k && 2 * k + 1 <= Int32.Max
    requires VariableFor(accuracy, minimum, maximum).lowerBond <= k as real <= VariableFor(accuracy, minimum, maximum).upperBond
    ensures SliderValueFor(accuracy, k as real).Some?
    ensures minimum <= SliderValueFor(accuracy, k as real).value <= maximum
  {
    var v := VariableFor(accuracy, minimum, maximum);
    match accuracy {
      case Float =>
      case Integer =>
        assert TruncToInt(k as real) == k;
      case Even =>
        assert TruncToInt(k as real) == k;
        assert Int32.Wrap(k * 2) == 2 * k;
        assert minimum == v.lowerBond * 2.0 && maximum == v.upperBond * 2.0;
      case Odd =>
        assert k as real * 2.0 == (2 * k) as real;
        assert TruncToInt((2 * k) as real) == 2 * k;
        assert Int32.Wrap(2 * k + 1) == 2 * k + 1;
        assert minimum == v.lowerBond * 2.0 + 1.0 && maximum == v.upperBond * 2.0 + 1.0;
    }
  }

  /** The sliders among the objects found for `guids`, in order; missing objects and other objects are skipped. */
  function SlidersOf(document: map<Guid, DocObject>, guids: seq<Guid>): (r: seq<NumberSlider>)
    ensures |r| <= |guids|
    ensures forall s :: s in r ==> exists g :: g in guids && g in document && document[g] == SliderObject(s)
  {
    if |guids| == 0 then []
    else
      var g := guids[|guids| - 1];
      SlidersOf(document, guids[..|guids| - 1])
        + (if g in document && document[g].SliderObject? then [document[g].slider] else [])
  }

  /** The numbers among a parameter's data, in order. */
  function Numbers(data: seq<Goo>): (r: seq<Backend.Double>)
    ensures |r| <= |data|
    ensures forall x :: x in r ==> GhNumber(x) in data
    ensures (forall k :: 0 <= k < |data| ==> data[k].GhNumber?) ==> |r| == |data|
  {
    if |data| == 0 then []
    else Numbers(data[..|data| - 1]) + (if data[|data| - 1].GhNumber? then [data[|data| - 1].number] else [])
  }

  /** The numbers of all parameters, parameter by parameter. */
  function AllNumbers(params: seq<Param>): (r: seq<Backend.Double>)
    reads params
  {
    if |params| == 0 then [] else AllNumbers(params[..|params| - 1]) + Numbers(params[|params| - 1].data)
  }

  lemma {:induction false} NumbersAppend(a: seq<Goo>, b: seq<Goo>)
    ensures Numbers(a + b) == Numbers(a) + Numbers(b)
    decreases |b|
  {
    if |b| == 0 {
      assert a + b == a;
    } else {
      assert (a + b)[..|a + b| - 1] == a + b[..|b| - 1];
      NumbersAppend(a, b[..|b| - 1]);
    }
  }

  /** Every objective value comes from a number in some objective's data. */
  lemma {:induction false} AllNumbersFromData(params: seq<Param>, x: Backend.Double)
    requires x in AllNumbers(params)
    ensures exists i :: 0 <= i < |params| && GhNumber(x) in params[i].data
    decreases |params|
  {
    var n := |params|;
    if x in Numbers(params[n - 1].data) {
      assert GhNumber(x) in params[n - 1].data;
    } else {
      AllNumbersFromData(params[..n - 1], x);
      var i :| 0 <= i < n - 1 && GhNumber(x) in params[..n - 1][i].data;
      assert params[i] == params[..n - 1][i];
    }
  }

  /**
   * The value each slider object holds after the first `n` sliders were written: the one
   * written for the last position holding it, or `initial` when none does.
   */
  ghost function LastWritten(sliders: seq<NumberSlider?>, parameters: seq<real>, n: nat, s: NumberSlider, initial: real): real
    requires n <= |sliders| && n <= |parameters|
    requires forall k :: 0 <= k < n ==> sliders[k] != null && SliderValueFor(sliders[k].accuracy, parameters[k]).Some?
  {
    if n == 0 then initial
    else if sliders[n - 1] == s then SliderValueFor(s.accuracy, parameters[n - 1]).value
    else LastWritten(sliders, parameters, n - 1, s, initial)
  }

  /** A slider object none of the first `n` positions holds keeps its value. */
  lemma {:induction false} LastWrittenUntouched(sliders: seq<NumberSlider?>, parameters: seq<real>, n: nat, s: NumberSlider, initial: real)
    requires n <= |sliders| && n <= |parameters|
    requires forall k :: 0 <= k < n ==> sliders[k] != null && SliderValueFor(sliders[k].accuracy, parameters[k]).Some?
    requires s !in sliders[..n]
    ensures LastWritten(sliders, parameters, n, s, initial) == initial
  {
    if n > 0 {
      assert sliders[n - 1] == sliders[..n][n - 1];
      assert sliders[..n - 1] == sliders[..n][..n - 1];
      LastWrittenUntouched(sliders, parameters, n - 1, s, initial);
    }
  }

  /** Without repeated sliders, each written slider holds the value for its own position. */
  lemma {:induction false} LastWrittenDistinct(sliders: seq<NumberSlider?>, parameters: seq<real>, n: nat, k: nat, initial: real)
    requires n <= |sliders| && n <= |parameters| && k < n
    requires forall j :: 0 <= j < n ==> sliders[j] != null && SliderValueFor(sliders[j].accuracy, parameters[j]).Some?
    requires forall i, j :: 0 <= i < j < n ==> sliders[i] != sliders[j]
    ensures LastWritten(sliders, parameters, n, sliders[k], initial) == SliderValueFor(sliders[k].accuracy, parameters[k]).value
    decreases n
  {
    if k < n - 1 {
      LastWrittenDistinct(sliders, parameters, n - 1, k, initial);
    }
  }

  /**
   * How `SetSliderValues(parameters)` ends when scanning from position `i`: the number of
   * sliders written, and false at a null slider, an exception for a missing parameter or a
   * failed cast, or true after the last slider.
   */
  function WriteOutcome(sliders: seq<NumberSlider?>, parameters: seq<real>, i: nat): (r: (nat, Result<bool, string>))
    requires i <= |sliders|
    ensures i <= r.0 <= |sliders|
    ensures r.1 == Success(true) ==> r.0 == |sliders|
    ensures r.1 == Success(false) ==> r.0 < |sliders| && sliders[r.0] == null
    ensures r.0 <= |parameters| || r.0 == i
    ensures forall k :: i <= k < r.0 ==> k < |parameters| && sliders[k] != null && SliderValueFor(sliders[k].accuracy, parameters[k]).Some?
    decreases |sliders| - i
  {
    if i == |sliders| then (i, Success(true))
    else if sliders[i] == null then (i, Success(false))
    else if i >= |parameters| then (i, Failure("ArgumentOutOfRangeException"))
    else if SliderValueFor(sliders[i].accuracy, parameters[i]).None? then (i, Failure("OverflowException"))
    else WriteOutcome(sliders, parameters, i + 1)
  }

  class GrasshopperInOut {
    /** `_document`: the objects of the Grasshopper document by guid. */
    const document: map<Guid, DocObject>

    var sliders: seq<NumberSlider?>
    /** Never cleared: every call of `SetVariables` appends the current sources. */
    var inputGuids: seq<Guid>
    var variables: seq<Variable>
    var objectives: seq<Param>
    /** Number of `_document.NewSolution(true)` calls made by `Recalculate`. */
    var solutions: nat
    /** Whether `Sliders`, `Variables` and `Objectives` have been assigned: until then they are null. */
    var hasSliders: bool
    var hasVariables: bool
    var hasObjectives: bool

    /** Only `InputGuids` is created; the other lists stay null until `SetVariables` and `SetObjectives`. */
    constructor (document: map<Guid, DocObject>)
      ensures this.document == document
      ensures inputGuids == [] && solutions == 0
      ensures !hasSliders && !hasVariables && !hasObjectives
    {
      this.document := document;
      sliders, inputGuids, variables, objectives, solutions := [], [], [], [], 0;
      hasSliders, hasVariables, hasObjectives := false, false, false;
    }

    /**
     * `SetVariables`: append the guids of the first input's sources, fail when there are
     * none at all, and otherwise take the sliders among the found objects as the variables.
     */
    method SetVariables(sources: seq<Guid>) returns (ok: bool)
      modifies this`sliders, this`inputGuids, this`variables, this`hasSliders, this`hasVariables
      ensures hasSliders && hasVariables == (old(hasVariables) || ok)
      ensures inputGuids == old(inputGuids) + sources
      ensures ok <==> |inputGuids| > 0
      ensures ok ==> sliders == SlidersOf(document, inputGuids)
      ensures ok ==> |variables| == |sliders|
      ensures ok ==> forall i :: 0 <= i < |sliders| ==>
                variables[i] == VariableFor(sliders[i].accuracy, sliders[i].minimum, sliders[i].maximum)
      ensures !ok ==> sliders == [] && variables == old(variables)
    {
      sliders, hasSliders := [], true;
      for k := 0 to |sources|
        invariant inputGuids == old(inputGuids) + sources[..k]
        invariant sliders == [] && variables == old(variables)
        invariant hasSliders && hasVariables == old(hasVariables)
      {
        inputGuids := inputGuids + [sources[k]];
      }
      assert sources[..|sources|] == sources;
      if |inputGuids| == 0 {
        // "No input variables found."
        return false;
      }
      var found: seq<NumberSlider> := [];
      for k := 0 to |inputGuids|
        invariant found == SlidersOf(document, inputGuids[..k])
        invariant hasSliders
      {
        assert inputGuids[..k + 1][..k] == inputGuids[..k];
        var guid := inputGuids[k];
        if guid in document && document[guid].SliderObject? {
          found := found + [document[guid].slider];
        }
      }
      assert inputGuids[..|inputGuids|] == inputGuids;
      sliders := found;
      SetSliderBounds();
      hasVariables := true;
      ok := true;
    }

    /** `SetSliderValues()`: one variable per slider, in order, from the slider's type and range. */
    method SetSliderBounds()
      requires forall i :: 0 <= i < |sliders| ==> sliders[i] != null
      modifies this`variables
      ensures |variables| == |sliders|
      ensures forall i :: 0 <= i < |sliders| ==> variables[i] == VariableFor(sliders[i].accuracy, sliders[i].minimum, sliders[i].maximum)
    {
      var vars: seq<Variable> := [];
      for i := 0 to |sliders|
        invariant |vars| == i
        invariant forall k :: 0 <= k < i ==> vars[k] == VariableFor(sliders[k].accuracy, sliders[k].minimum, sliders[k].maximum)
      {
        var slider := sliders[i];
        var min, max := slider.minimum, slider.maximum;
        var lowerBond, upperBond, isInteger;
        match slider.accuracy {
          case Even =>
            lowerBond, upperBond, isInteger := min / 2.0, max / 2.0, true;
          case Odd =>
            lowerBond, upperBond, isInteger := (min - 1.0) / 2.0, (max - 1.0) / 2.0, true;
          case Integer =>
            lowerBond, upperBond, isInteger := min, max, true;
          case Float =>
            lowerBond, upperBond, isInteger := min, max, false;
        }
        vars := vars + [Variable(lowerBond, upperBond, isInteger)];
      }
      variables := vars;
    }

    /** `SetObjectives`: fail without objective sources, otherwise take them as the objectives. */
    method SetObjectives(sources: seq<Param>) returns (ok: bool)
      modifies this`objectives, this`hasObjectives
      ensures ok <==> |sources| > 0
      ensures objectives == (if ok then sources else old(objectives))
      ensures hasObjectives == (old(hasObjectives) || ok)
    {
      if |sources| == 0 {
        // "No objective found."
        return false;
      }
      objectives, hasObjectives := sources, true;
      ok := true;
    }

    /**
     * `SetSliderValues(parameters)`: write the value for parameter i into slider i, in order,
     * until a null slider (false), a missing parameter or failed cast (an exception) or the end
     * (true). A slider appearing twice ends with the value of its last position. Before
     * `SetVariables` the slider list is null and the loop throws at once.
     */
    method SetSliderValues(parameters: seq<real>) returns (r: Result<bool, string>)
      modifies set k | 0 <= k < |sliders| && sliders[k] != null :: sliders[k]
      ensures r == if hasSliders then WriteOutcome(sliders, parameters, 0).1 else Failure("NullReferenceException")
      ensures var n := if hasSliders then WriteOutcome(sliders, parameters, 0).0 else 0;
              forall k :: 0 <= k < |sliders| && sliders[k] != null ==>
                sliders[k].value == LastWritten(sliders, parameters, n, sliders[k], old(sliders[k].value))
    {
      if !hasSliders {
        return Failure("NullReferenceException");
      }
      ghost var n := WriteOutcome(sliders, parameters, 0).0;
      var i := 0;
      while i < |sliders|
        invariant 0 <= i <= |sliders|
        invariant WriteOutcome(sliders, parameters, i) == WriteOutcome(sliders, parameters, 0)
        invariant i <= n
        invariant forall k :: 0 <= k < |sliders| && sliders[k] != null ==>
                    sliders[k].value == LastWritten(sliders, parameters, i, sliders[k], old(sliders[k].value))
      {
        var slider := sliders[i];
        if slider == null {
          return Success(false);
        }
        if i >= |parameters| {
          return Failure("ArgumentOutOfRangeException");
        }
        var val := SliderValueFor(slider.accuracy, parameters[i]);
        if val.None? {
          return Failure("OverflowException");
        }
        slider.SetSliderValue(val.value);
        i := i + 1;
      }
      r := Success(true);
    }

    /**
     * `NewSolution`: write the parameters into the sliders, then recompute the document
     * (the outcome of `SetSliderValues` is ignored; an exception ends the call before
     * the recomputation).
     */
    method NewSolution(parameters: seq<real>) returns (error: Option<string>)
      modifies (set k | 0 <= k < |sliders| && sliders[k] != null :: sliders[k]), this`solutions
      ensures var w := WriteOutcome(sliders, parameters, 0);
              && (error.Some? <==> !hasSliders || w.1.Failure?)
              && (!hasSliders ==> error == Some("NullReferenceException"))
              && solutions == old(solutions) + (if error.None? then 1 else 0)
      ensures var n := if hasSliders then WriteOutcome(sliders, parameters, 0).0 else 0;
              forall k :: 0 <= k < |sliders| && sliders[k] != null ==>
                sliders[k].value == LastWritten(sliders, parameters, n, sliders[k], old(sliders[k].value))
    {
      var written := SetSliderValues(parameters);
      if written.Failure? {
        return Some(written.error);
      }
      Recalculate();
      error := None;
    }

    /** `Recalculate`: waiting for the solver to be idle and done is not modelled; one new solution is started. */
    method Recalculate()
      modifies this`solutions
      ensures solutions == old(solutions) + 1
    {
      solutions := solutions + 1;
    }

    /**
     * `GetObjectiveValues`: the numbers in the objectives' data, objective by objective.
     * Before a successful `SetObjectives` the list is null and the loop throws.
     */
    method GetObjectiveValues() returns (r: Result<seq<Backend.Double>, string>)
      ensures r == if hasObjectives then Success(AllNumbers(objectives)) else Failure("NullReferenceException")
    {
      if !hasObjectives {
        return Failure("NullReferenceException");
      }
      var values := [];
      for i := 0 to |objectives|
        invariant values == AllNumbers(objectives[..i])
      {
        assert objectives[..i + 1][..i] == objectives[..i];
        var data := objectives[i].data;
        var numbers: seq<Backend.Double> := [];
        for j := 0 to |data|
          invariant numbers == Numbers(data[..j])
        {
          assert data[..j + 1][..j] == data[..j];
          if data[j].GhNumber? {
            numbers := numbers + [data[j].number];
          }
        }
        assert data[..|data|] == data;
        values := values + numbers;
      }
      assert objectives[..|objectives|] == objectives;
      r := Success(values);
    }
  }
}
