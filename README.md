# Tunny orchestration core in Dafny

This project models three parts of Tunny, the Grasshopper optimization plug-in that drives Optuna:

- **The trial orchestration of `Algorithm`.** It checks a stored study against the run. It chooses the sampler and pre-seeds the study. It runs the ask / evaluate / tell loop with its NaN retry bound and its stop rule, in plain and human-in-the-loop runs. It writes the study and trial attributes, and it extracts the optimum.
- **BayesOpt's `GrasshopperInOut`.** It collects the canvas sliders as variables, writes optimizer parameters back into the sliders (with C#'s casts to `int`), and reads the objective numbers.
- **The in-memory part of the SQLite study reader.** Study, attribute and trial rows are grouped into study summaries.

Files of the model:

| file | models |
|---|---|
| `wrappers.dfy` | `Option` and `Result` |
| `strings.dfy` | the .NET string operations used: `Join`, `Split`, `Replace`, `Contains`, `Trim` and `char.IsWhiteSpace` |
| `int32.dfy` | the range of a C# `int` and unchecked wrap-around into it |
| `backend.dfy` | the Optuna study as the core sees it (`Backend.Study`): ask, tell, enqueue, attributes. The suggestions, best trials, hypervolume and best parameters (none while no trial is complete) are fixed functions of what has been told, and which tells raise is fixed too. |
| `solver_rules.dfy` | the pure decisions of `Algorithm.cs` (stop rule, retry bound, hypervolume ratio, GC policy, sampler dispatch, optimum lookup, resume check, `result_` attributes) |
| `algorithm.dfy` | `Algorithm` as a class whose methods change the run's state and the study |
| `grasshopper_inout.dfy` | `GrasshopperInOut`, `GH_NumberSlider` and the objective parameters as classes |
| `sqlite_storage.dfy` | `StudySummary` as a class; the reader loops as methods over row sequences |

### Time, stop requests and the human reviewer

The clock, the stop requests from the UI thread and the number of trials still waiting for a human are inputs given per check of the loop. Each is a function `nat -> X`:

- `elapsedAt(k)` is the time that has passed at check `k`.
- `requests(k)` says whether a stop request arrives just before check `k`.
- `runningAt(k)` counts the trials still waiting at poll `k`.

### When a stop request takes effect, and how a state text is read

- **A stop request takes effect at the next check**, because `CheckOptimizeComplete` runs before each step in `RunOptimize` (Tunny/Solver/Algorithm.cs:204-212). So a request that arrives before check `k` ends the run at check `k`, after exactly `k` steps. `SolverRules.StopRequestEndsRunAtNextCheck` and `Solver.Algorithm.RunOptimize` state this.
- **A trial's `state` text is read by `Enum.TryParse`** (Tunny/Storage/SqliteStorage.cs:38), whose result is ignored. The model follows the .NET Framework rules: the text is trimmed; text that starts with a digit or a sign is an `int` code, defined or not; other text is a comma-separated list of member names, matched case-sensitively, whose codes are or-ed. Whenever parsing fails, the out-parameter holds `default(TrialState)`, code 0, `Running`.

## Model

| member | source | states |
|---|---|---|
| SolverRules.StopDecision | Tunny/Solver/Algorithm.cs:303-324 | stop with AllTrialCompleted iff the trial count is reached; otherwise Timeout iff a positive timeout has elapsed; otherwise StoppedByUser iff the flag is set; otherwise continue |
| SolverRules.NoRequestNoFlag | Tunny/Solver/Algorithm.cs:204-212 | without a request before check k and no flag at the start, the flag is clear at check k |
| SolverRules.UninterruptedRunCompletesAllTrials | Tunny/Solver/Algorithm.cs:196-215 | without timeout or stop request, every check before nTrials continues and check max(nTrials, 0) ends with AllTrialCompleted |
| SolverRules.StopRequestEndsRunAtNextCheck | Tunny/Solver/Algorithm.cs:196-215 | the first stop request, arriving before check k, ends the run at exactly check k with StoppedByUser |
| SolverRules.FirstClean | Tunny/Solver/Algorithm.cs:248-281 | the step keeps the first NaN-free evaluation among the first ten; None means the first ten were all NaN |
| SolverRules.Progress | Tunny/Solver/Algorithm.cs:244 | `trialNum * 100 / nTrials` with the product wrapped to `int` and the quotient truncated; in 0..99 while trials remain and the product fits an `int` |
| SolverRules.ProgressWrapsNegative | Tunny/Solver/Algorithm.cs:244 | with 40,000,000 trials, step 30,000,000 passes a progress of -32 |
| SolverRules.HypervolumeRatio | Tunny/Solver/Algorithm.cs:342-355 | 0 before any trial, 1 after one trial or for one objective, otherwise the computed ratio; stays in [0, 1] when that does |
| SolverRules.ComputeBestValues | Tunny/Solver/Algorithm.cs:342-355 | no best values and ratio 0 unless realtime results are shown; otherwise the best trials and the ratio rule |
| SolverRules.RunGCPolicy | Tunny/Solver/Algorithm.cs:387-398 | GC runs iff the policy is Always, or HasGeometry with at least one geometry |
| SolverRules.SamplerFor | Tunny/Solver/Algorithm.cs:466-495 | the sampler of each type number 0..7 (0 and 7 are TPE); no sampler outside 0..7 |
| SolverRules.ConstraintWarningAsWrittenMisfires | Tunny/Solver/Algorithm.cs:496-499 | the written warning misses CMA-ES (type 4, built without constraints) and fires for type 7 (TPE, built with them) |
| SolverRules.SetSamplerSettings | Tunny/Solver/Algorithm.cs:466-501 | the "Unknown sampler type" failure iff the type is outside 0..7; constraints are passed iff they exist and the sampler takes them; the warning is given iff they exist and are dropped |
| SolverRules.ParamValueLastMatch | Tunny/Solver/Algorithm.cs:170-194 | the optimum of a variable is the value of the last best-parameter pair with its name |
| SolverRules.ParamValueNoMatch | Tunny/Solver/Algorithm.cs:170-194 | a variable without a best-parameter pair keeps the array default 0 |
| SolverRules.ParamValueOfPair | Tunny/Solver/Algorithm.cs:170-194 | with distinct keys the lookup returns the one value stored for the name |
| SolverRules.ParamValueIgnoresKeyOrder | Tunny/Solver/Algorithm.cs:170-194 | with distinct keys the optimum does not depend on the order of the best parameters |
| SolverRules.StudyConflict | Tunny/Solver/Algorithm.cs:139-168 | proceed iff the study is new, or may be continued and has as many directions as objectives; UseExitStudyWithoutLoading and DirectionNumNotMatch exactly in the other two cases |
| SolverRules.PlainNames | Tunny/Solver/Algorithm.cs:424-440 | the numeric objective names are objective names without the human-in-the-loop marker, no more of them than names |
| SolverRules.ResultAttrs | Tunny/Solver/Algorithm.cs:424-440 | (definition) the k-th numeric objective name, prefixed `result_`, is paired with the k-th objective value |
| SolverRules.NonGeometricAttr | Tunny/Solver/Algorithm.cs:443-464 | (definition) one attribute per entry with its key; `Constraint` as floats, all others as strings |
| SolverRules.PlainNamesGrow | Tunny/Solver/Algorithm.cs:424-440 | a longer prefix of the names has at least as many numeric names |
| SolverRules.ResultScanEnd | Tunny/Solver/Algorithm.cs:424-440 | the index at which the loop stops: the end, or the first numeric name past the last objective value or past the last name |
| SolverRules.ResultScanEndIsFirst | Tunny/Solver/Algorithm.cs:424-440 | every index before that stop is within the names and is an image name or has an objective value left |
| SolverRules.HitlResults | Tunny/Solver/Algorithm.cs:424-440 | IndexOutOfRangeException iff the result does not fit the names; without it, the `result_` pairs of all numeric names; with it, those written before the throw |
| SolverRules.TrialUserAttrs | Tunny/Solver/Algorithm.cs:407-441 | the geometry and other attributes always come first; the exception arises only in human-in-the-loop runs with values that do not fit the names; without it, the `result_` pairs follow exactly when there are values and the run is human-in-the-loop |
| Solver.DirectionsOfLookup | Tunny/Solver/Algorithm.cs:139-150 | the dictionary built from distinct study names maps each name to its number of directions |
| Solver.MinLength | Tunny/Solver/Algorithm.cs:367-385 | the length of the shortest value list |
| Solver.EnqueueError | Tunny/Solver/Algorithm.cs:367-385 | ArgumentOutOfRangeException iff some value list is shorter than the first one |
| Solver.EnqueuedPoints | Tunny/Solver/Algorithm.cs:367-385 | no point for an empty dictionary, otherwise one per index below the shortest list's length |
| Solver.PointOfIsEnqueuePoint | Tunny/Solver/Algorithm.cs:372-382 | the point for an index maps each variable name to its value at that index and nothing else |
| Solver.EnqueuedPointsAreItemValues | Tunny/Solver/Algorithm.cs:367-385 | each enqueued point maps every variable name to its value at the point's index |
| Solver.Algorithm.constructor | Tunny/Solver/Algorithm.cs:33-44 | the variables, objectives, pre-seeded points, settings and evaluator are kept; `XOpt` is still null, the stop flag clear and no collection made; the end state is not set |
| Solver.Algorithm.Suggested | Tunny/Solver/Algorithm.cs:252-256 | one suggestion per variable; an integer variable gets the integer suggestion |
| Solver.Algorithm.ProgressStateFor | Tunny/Solver/Algorithm.cs:326-340 | the progress snapshot carries the trial number, the parameters and the objective count; no best values unless realtime results are shown |
| Solver.Algorithm.AttemptsNaN | Tunny/Solver/Algorithm.cs:248-281 | (definition) for each of the ten evaluations a step may keep, whether it has a NaN |
| Solver.Algorithm.StepKept | Tunny/Solver/Algorithm.cs:248-281 | the kept trial is NaN-free and every trial before it in the step had a NaN; None iff all ten had a NaN |
| Solver.Algorithm.StepKeptFirstClean | Tunny/Solver/Algorithm.cs:248-281 | the step keeps exactly the first NaN-free trial within the bound |
| Solver.Algorithm.SetDirectionValues | Tunny/Solver/Algorithm.cs:128-137 | one "minimize" per objective |
| Solver.Algorithm.NicknameToAttr | Tunny/Solver/Algorithm.cs:95-104 | the names joined by commas; `StringBuilder.Remove`'s ArgumentOutOfRangeException iff there are no names |
| Solver.Algorithm.EnqueueTrial | Tunny/Solver/Algorithm.cs:367-385 | nothing for an empty dictionary (a null one is modelled as empty); otherwise the points of EnqueuedPoints are appended, one per value index of the shortest list, and ArgumentOutOfRangeException follows them iff some list is shorter than the first |
| Solver.Algorithm.EnqueuePoint | Tunny/Solver/Algorithm.cs:372-382 | the point for one index is built iff every list is long enough for it, and is then PointOf |
| Solver.Algorithm.CheckDirections | Tunny/Solver/Algorithm.cs:152-168 | the outcome and the end state are those of the resume rule for a stored study |
| Solver.Algorithm.CheckExistStudyParameter | Tunny/Solver/Algorithm.cs:139-150 | the outcome and the end state are those of the resume rule on the stored names and their direction counts |
| Solver.Algorithm.SetResultValues | Tunny/Solver/Algorithm.cs:170-194 | one objective: ValueError, leaving the optimum as it was, while the completed trials give no best parameters, else each variable's optimum looked up by name among them; several: the last evaluated parameters |
| Solver.Algorithm.RunGCAfterTrial | Tunny/Solver/Algorithm.cs:387-398 | one collection more iff the GC policy says so for the result's geometry |
| Solver.Algorithm.SetTrialUserAttr | Tunny/Solver/Algorithm.cs:407-441 | the attributes written and the exception are those of TrialUserAttrs |
| Solver.Algorithm.ResultAttributes | Tunny/Solver/Algorithm.cs:424-440 | the loop writes the pairs and raises the exception of HitlResults: the `result_` pairs of the numeric names up to the first out-of-range index |
| Solver.Algorithm.SetNonGeometricAttr | Tunny/Solver/Algorithm.cs:443-464 | the attributes written are those of NonGeometricAttr |
| Solver.Algorithm.SuggestParameters | Tunny/Solver/Algorithm.cs:252-256 | the parameter array holds the trial's suggestions |
| Solver.Algorithm.EvaluateUntilClean | Tunny/Solver/Algorithm.cs:245-281 | the retry loop asks trials from the first one on and stops at the kept trial, or after ten NaN results and one more ask |
| Solver.Algorithm.RecordError | Tunny/Solver/Algorithm.cs:283-297 | the step's exception: the attribute-writing one if writing throws, else ArgumentException iff a tell is made (outside human-in-the-loop runs) and fails |
| Solver.Algorithm.RunSingleOptimizeStep | Tunny/Solver/Algorithm.cs:242-301 | a step that gives up writes and tells nothing and has asked eleven trials; a kept result is the first NaN-free one, its trial gets exactly the attributes of TrialUserAttrs and its exception is RecordError's; it is told only outside human-in-the-loop runs and when no exception arose; the collection policy runs unless writing the attributes threw, a failing tell included |
| Solver.Algorithm.RecordTrial | Tunny/Solver/Algorithm.cs:283-297 | the attributes of TrialUserAttrs are written; unless that threw, the result is told (outside human-in-the-loop runs), a failing tell raising ArgumentException and recording nothing, and the collection policy runs either way |
| Solver.Algorithm.CheckOptimizeComplete | Tunny/Solver/Algorithm.cs:303-324 | done iff the stop rule stops; the end state becomes the stop reason and a forced stop is reset |
| Solver.Algorithm.ReceiveStopRequest | Tunny/Solver/Algorithm.cs:316-321 | a stop request sets the flag and nothing clears it |
| Solver.Algorithm.OptimizePass | Tunny/Solver/Algorithm.cs:206-211 | one check followed, unless it stops, by one step that asks and writes `xTest`; a kept result is told, or its failing tell gives ArgumentException and records nothing; a stop asks nothing and leaves `xTest` |
| Solver.Algorithm.LastParams | Tunny/Solver/Algorithm.cs:198 | (definition) `xTest` after a run: the zeros of `new double[n]` while no trial was asked, else the last asked trial's suggestions |
| Solver.Algorithm.RunOptimize | Tunny/Solver/Algorithm.cs:196-215 | `xTest` starts as zeros and ends as LastParams; the enqueueing exception escapes before any step; a failing tell escapes as ArgumentException with the end state unchanged and the stop rule not fired; otherwise the run stops at the first check whose decision is a stop, one NaN-free tell per completed step, nTrials tells when uninterrupted, and a giving-up step ends the run |
| Solver.Algorithm.OptimizeLoop | Tunny/Solver/Algorithm.cs:204-212 | the statements of RunOptimize about the loop, from its first check, the failing tell included |
| Solver.Algorithm.HumanInTheLoopPass | Tunny/Solver/Algorithm.cs:227-236 | a step runs only while fewer trials are waiting than the batch size; nothing is told; a step's exception is that of TrialUserAttrs |
| Solver.Algorithm.RunHumanInTheLoopOptimize | Tunny/Solver/Algorithm.cs:217-240 | the pre-seeded points are enqueued, nothing is told; an enqueueing exception or an IndexOutOfRangeException for a result that does not fit the objective names ends the run without a stop state; `xTest` ends as LastParams |
| Solver.Algorithm.HumanInTheLoopLoop | Tunny/Solver/Algorithm.cs:225-237 | the statements of RunHumanInTheLoopOptimize about the loop: nothing told, a step's IndexOutOfRangeException ends it without a stop state, the end state is a stop reason or unchanged |
| Solver.Algorithm.Solve | Tunny/Solver/Algorithm.cs:46-93 | an unknown sampler throws "Unknown sampler type", a conflicting stored study ends in its state, no variables throw ArgumentOutOfRangeException, each before the study changes; otherwise `variable_names` and the metric names are recorded; the enqueueing exception, the failing tell's ArgumentException (or, with a person in the loop, IndexOutOfRangeException) escape with state Error; for one objective, completed trials with no best parameters always end in an exception and are the only cause of ValueError, and otherwise the optimum is looked up among the best parameters; several objectives: the last evaluated parameters; an exception leaves the optimum as it was; tells only append NaN-free values, and nTrials of them in an uninterrupted completed run |
| Solver.Algorithm.OptimizeStudy | Tunny/Solver/Algorithm.cs:66-88 | the part of Solve after the checks: the same statements about the names recorded, the exceptions, the end state, the tells and the optimum |
| Solver.FirstCleanFrom | Tunny/Solver/Algorithm.cs:248-281 | the first clean evaluation after a run of NaN results is the one kept |
| Backend.Study.Ask | Tunny/Solver/Algorithm.cs:245 | each ask hands out a trial id never handed out before |
| Backend.Study.Tell | Tunny/Solver/Algorithm.cs:288 | a tell is appended to the study's record unless it raises, which it reports |
| Backend.Study.SetTrialUserAttrs | Tunny/Solver/Algorithm.cs:407-464 | trial attributes are appended in order, each tagged with its trial as Tagged says |
| Backend.Tagged | Tunny/Solver/Algorithm.cs:407-464 | each attribute written is tagged with the trial it is written on, in order |
| GrasshopperIO.TruncToInt | BayesOpt/Util/GrasshopperInOut.cs:132-146 | a decimal cast to an integer drops the fraction toward zero |
| GrasshopperIO.Int32Cast | BayesOpt/Util/GrasshopperInOut.cs:132-146 | `(int)` gives the truncated value, and throws iff that is outside the `int` range |
| GrasshopperIO.VariableFor | BayesOpt/Util/GrasshopperInOut.cs:65-106 | Float and Integer sliders keep their range; Even sliders halve it; Odd sliders map it by (v - 1) / 2; every non-Float slider is an integer variable |
| GrasshopperIO.SliderValueFor | BayesOpt/Util/GrasshopperInOut.cs:132-146 | the value written per accuracy; it fails exactly when the source's cast throws |
| GrasshopperIO.EvenSliderRoundTrip | BayesOpt/Util/GrasshopperInOut.cs:65-146 | an even slider value mapped to its variable and written back gives the same value |
| GrasshopperIO.OddSliderRoundTrip | BayesOpt/Util/GrasshopperInOut.cs:65-146 | an odd slider value mapped to its variable and written back gives the same value |
| GrasshopperIO.IntegerSliderRoundTrip | BayesOpt/Util/GrasshopperInOut.cs:65-146 | an integer slider value is written back unchanged |
| GrasshopperIO.SliderValueWithinRange | BayesOpt/Util/GrasshopperInOut.cs:65-146 | an integer parameter within its variable's bounds is written as a value within the slider's range |
| GrasshopperIO.SlidersOf | BayesOpt/Util/GrasshopperInOut.cs:50-60 | every slider taken is a document object found for one of the input guids |
| GrasshopperIO.Numbers | BayesOpt/Util/GrasshopperInOut.cs:176-186 | the numbers of an objective's data; all of them when every item is a number |
| GrasshopperIO.NumbersAppend | BayesOpt/Util/GrasshopperInOut.cs:176-186 | the numbers of concatenated data are the concatenated numbers |
| GrasshopperIO.AllNumbersFromData | BayesOpt/Util/GrasshopperInOut.cs:172-189 | every objective value comes from a number in some objective's data |
| GrasshopperIO.LastWrittenUntouched | BayesOpt/Util/GrasshopperInOut.cs:120-155 | a slider not among the written positions keeps its value |
| GrasshopperIO.LastWrittenDistinct | BayesOpt/Util/GrasshopperInOut.cs:120-155 | without repeated sliders, each written slider holds the value for its own parameter |
| GrasshopperIO.WriteOutcome | BayesOpt/Util/GrasshopperInOut.cs:120-155 | writing ends true after the last slider, false at a null slider, and every slider before the stop had a parameter and a successful cast |
| GrasshopperIO.NumberSlider.SetSliderValue | BayesOpt/Util/GrasshopperInOut.cs:148-151 | the slider holds the value set |
| GrasshopperIO.GrasshopperInOut.constructor | BayesOpt/Util/GrasshopperInOut.cs:28-34 | the document is kept, `InputGuids` is empty and the slider, variable and objective lists are still null |
| GrasshopperIO.GrasshopperInOut.SetVariables | BayesOpt/Util/GrasshopperInOut.cs:36-63 | the slider list is created and the guids appended; it fails iff no guid was ever collected; otherwise the sliders found become the variables |
| GrasshopperIO.GrasshopperInOut.SetSliderBounds | BayesOpt/Util/GrasshopperInOut.cs:65-106 | one variable per slider, from its accuracy and range |
| GrasshopperIO.GrasshopperInOut.SetObjectives | BayesOpt/Util/GrasshopperInOut.cs:108-118 | fails iff there are no objective sources; otherwise they become the objectives and the list is no longer null |
| GrasshopperIO.GrasshopperInOut.SetSliderValues | BayesOpt/Util/GrasshopperInOut.cs:120-155 | NullReferenceException while the slider list is null; otherwise the outcome is WriteOutcome's, each slider ends with the value of its last written position and an unwritten slider keeps its value |
| GrasshopperIO.GrasshopperInOut.NewSolution | BayesOpt/Util/GrasshopperInOut.cs:166-170 | the sliders are written as by SetSliderValues, then one recomputation unless writing threw, NullReferenceException included |
| GrasshopperIO.GrasshopperInOut.Recalculate | BayesOpt/Util/GrasshopperInOut.cs:157-164 | one new solution is started |
| GrasshopperIO.GrasshopperInOut.GetObjectiveValues | BayesOpt/Util/GrasshopperInOut.cs:172-189 | NullReferenceException while the objective list is null; otherwise the numbers in the objectives' data, objective by objective |
| SqliteStorage.ParseTrialState | Tunny/Storage/SqliteStorage.cs:38 | text that does not start like a number (after trimming) always gives a code below 8; the number and name paths are stated by ParseNumberText and ParseStateName |
| SqliteStorage.ParseStateName | Tunny/Storage/SqliteStorage.cs:38 | a member's name, with any white space around it, parses to that member |
| SqliteStorage.CodeOfName | Tunny/Storage/SqliteStorage.cs:38 | a name has a code iff it is exactly one of the member names, and that member's code |
| SqliteStorage.NamesCode | Tunny/Storage/SqliteStorage.cs:38 | a list of pieces has a code iff every trimmed piece is a member name; the or of codes below 8 |
| SqliteStorage.ParseInt32 | Tunny/Storage/SqliteStorage.cs:38 | FormatException iff the text, after an optional sign, is empty or not all ASCII digits; any other failure is OverflowException, and a success lies in `int` range |
| SqliteStorage.DigitsTextValue | Tunny/Storage/SqliteStorage.cs:38 | the decimal digits written for a value are non-empty ASCII digits that read back as that value |
| SqliteStorage.ParseInt32OfText | Tunny/Storage/SqliteStorage.cs:38 | every `int`, written out in decimal, parses back to itself |
| SqliteStorage.ParseNumberText | Tunny/Storage/SqliteStorage.cs:38 | a state text that is a written-out `int`, with any white space around it, is that number as the state, member or not |
| SqliteStorage.ParseIgnoresSurroundingWhiteSpace | Tunny/Storage/SqliteStorage.cs:38 | white space around the text changes nothing |
| SqliteStorage.ParseMemberCode | Tunny/Storage/SqliteStorage.cs:38 | the text "1" is read as Complete |
| SqliteStorage.ParseUndefinedCode | Tunny/Storage/SqliteStorage.cs:38 | a number is the state even when no member has that code, e.g. " 7" and "-1" |
| SqliteStorage.ParseOverflowIsRunning | Tunny/Storage/SqliteStorage.cs:38 | "2147483648" overflows and is read as Running |
| SqliteStorage.ParseUpperCaseIsRunning | Tunny/Storage/SqliteStorage.cs:38 | "COMPLETE" is no member name and is read as Running |
| SqliteStorage.ParseNameList | Tunny/Storage/SqliteStorage.cs:38 | two member names separated by ", " give the or of their codes |
| SqliteStorage.ParsePairOfNames | Tunny/Storage/SqliteStorage.cs:38 | any two plain names with codes, separated by ", ", parse to the or of the codes |
| SqliteStorage.StripJsonMembers | Tunny/Storage/SqliteStorage.cs:78 | stripping removes exactly quotes, brackets and spaces |
| SqliteStorage.ParseValueJson | Tunny/Storage/SqliteStorage.cs:78 | the value list always has at least one name |
| SqliteStorage.ParsedNamesAreClean | Tunny/Storage/SqliteStorage.cs:78 | no parsed name has a comma, quote, bracket or space, and all its characters come from the text |
| SqliteStorage.ParsedNamesRejoin | Tunny/Storage/SqliteStorage.cs:78 | one more name than commas; joining them gives back the stripped text |
| SqliteStorage.JsonListRoundTrip | Tunny/Storage/SqliteStorage.cs:97 | metric names of printable ASCII without a backslash, comma, quote, bracket or space, written as a JSON list, are read back as the same names |
| SqliteStorage.JsonStringRoundTrip | Tunny/Storage/SqliteStorage.cs:78 | the comma-joined variable names, under the same condition, written as a JSON string, are read back as the names |
| SqliteStorage.SingleNameReadsBack | Tunny/Storage/SqliteStorage.cs:97 | a one-item list is read back as its item whenever the item has no comma, quote, bracket or space |
| SqliteStorage.EscapedNameReadsAsEscapes | Tunny/Storage/SqliteStorage.cs:97 | a name `json.dumps` escapes, such as "高さ", is read back as the text of its escapes, not as the name |
| SqliteStorage.EmptyListReadsAsOneEmptyName | Tunny/Storage/SqliteStorage.cs:78 | an empty JSON list is read as one empty name |
| SqliteStorage.FindId | Tunny/Storage/SqliteStorage.cs:53 | `Find` by id returns the first summary with that id, and none iff no summary has it |
| SqliteStorage.RecordedUntouched | Tunny/Storage/SqliteStorage.cs:63-103 | a summary without a matching row keeps its attributes |
| SqliteStorage.RecordedValue | Tunny/Storage/SqliteStorage.cs:63-103 | when reading succeeds, a study's matching row gives its summary exactly that row's parsed list |
| SqliteStorage.RecordedLastWrite | Tunny/Storage/SqliteStorage.cs:63-103 | the last matching row for a study is the one whose value counts |
| SqliteStorage.RecordedFromRow | Tunny/Storage/SqliteStorage.cs:63-103 | a matching row for a summary leaves the key among its attributes |
| SqliteStorage.RecordedKeyHasRow | Tunny/Storage/SqliteStorage.cs:63-103 | a key a summary did not start with comes from a matching row for it |
| SqliteStorage.GetStudy | Tunny/Storage/SqliteStorage.cs:105-127 | one new, distinct summary per row, in order, with the id wrapped to `int`, the name, and empty attributes |
| SqliteStorage.ReadUserAttributes | Tunny/Storage/SqliteStorage.cs:65-83 | no exception iff every `variable_names` row has a summary and at most one per study; then each summary holds its row's parsed list |
| SqliteStorage.ReadUserAttributeRow | Tunny/Storage/SqliteStorage.cs:70-81 | one row: the null dereference or duplicate `Add` exactly when the row does not fit; otherwise the state after the row |
| SqliteStorage.ReadSystemAttributes | Tunny/Storage/SqliteStorage.cs:84-102 | the same for `study:metric_names` rows and the system attributes |
| SqliteStorage.ReadSystemAttributeRow | Tunny/Storage/SqliteStorage.cs:89-100 | one row of the system-attribute loop, as for the user attributes |
| SqliteStorage.GetStudyAttributes | Tunny/Storage/SqliteStorage.cs:63-103 | no exception iff both row lists fit; then both attribute kinds as recorded; trials untouched |
| SqliteStorage.TrialOf | Tunny/Storage/SqliteStorage.cs:51-61 | the trial has the parsed state and the times, and the ids when they fit an `int` |
| SqliteStorage.TrialsAfterAppends | Tunny/Storage/SqliteStorage.cs:28-49 | reading rows appends exactly the trials found for a summary after the ones it had |
| SqliteStorage.TrialsAtCount | Tunny/Storage/SqliteStorage.cs:28-49 | a summary gets one trial per row with its id |
| SqliteStorage.TrialsAtPartition | Tunny/Storage/SqliteStorage.cs:28-49 | when every row's id has a summary, the trial counts add up to the number of rows |
| SqliteStorage.SetTrialInfoFromStudySummaries | Tunny/Storage/SqliteStorage.cs:51-61 | throws iff no summary has the row's id; otherwise that summary alone gets the trial appended |
| SqliteStorage.AppendTrials | Tunny/Storage/SqliteStorage.cs:35-41 | no exception iff every row's id has a summary; then each summary's trials are its matching rows' trials, in order |
| SqliteStorage.SetTrialCounts | Tunny/Storage/SqliteStorage.cs:45-48 | each summary's trial count is the length of its trial list |
| SqliteStorage.GetTrials | Tunny/Storage/SqliteStorage.cs:28-49 | the appended trials and the counts, or the exception for a row without a summary |
| SqliteStorage.StudyIds | Tunny/Storage/SqliteStorage.cs:119 | (definition) the summary ids are the row ids wrapped to `int` |
| SqliteStorage.GetStudySummaries | Tunny/Storage/SqliteStorage.cs:167-194 | nothing without file or table; otherwise success iff both attribute lists fit, with one summary per study row holding its recorded attributes and no trials |

## Left out

- The SQL and file I/O. `CheckTableExist` and the readers' queries are replaced by given booleans and row sequences in reader order (Tunny/Storage/SqliteStorage.cs:17-26).
- `CreateNewStorage` and `DuplicateStudyInStorage` are left out. They only hand work to Optuna's Python storage, which is not part of this model.
- `SaveInMemoryStudy` (`optuna.copy_study`) and `CreateStudy` are left out as calls into Python. The study is modelled by `Backend.Study`.
- The `tunny_version` study attribute is left out. It comes from assembly reflection.
- The message boxes are left out, and so are the progress reports to the UI. The model keeps the end state they report.
- Solver.Algorithm.Solve: the human-in-the-loop set-up (`FixStudyCachedStorage`, `WakeOptunaDashboard`, `SetObjective`, `SetWidgets`, Tunny/Solver/Algorithm.cs:73-80) is left out. It configures the Optuna dashboard through Python and leaves the study's trials and attributes as the model sees them.
- Solver.Algorithm.RunSingleOptimizeStep: `HumanInTheLoop.SaveNote` (Tunny/Solver/Algorithm.cs:260) is left out. It writes the objective images to the dashboard's note, which is not part of this model.
- SolverRules.Progress: `nTrials` is taken as a value that already fits an `int`. Only the product `trialNum * 100` is wrapped, as the C# expression does; `SolverRules.ProgressWrapsNegative` shows the wrap-around.
- GrasshopperIO.GrasshopperInOut: a null `Sliders`, `Variables` or `Objectives` list is modelled by the flags `hasSliders`, `hasVariables` and `hasObjectives`, and the NullReferenceException it causes as a failure value.
- GrasshopperIO.SliderValueFor: the C# `decimal` slider values are exact reals here. The 28-digit precision and rounding of `decimal` are not modelled.
- The time estimate in `ProgressState` is left out, because it is wall-clock arithmetic on `DateTime`.
- The Python sampler objects are left out. Only which sampler is chosen and whether it is given constraints is modelled.
- Concurrency is not modelled. The UI thread's stop request is sampled once before each check.
- Solver.Algorithm.RunHumanInTheLoopOptimize: the polling loop runs at most `maxPolls` polls. The source waits as long as a person takes, so a run that is still waiting after `maxPolls` polls is cut off by the model.
- `Recalculate`'s busy-wait for the solver to be idle is left out. `ExpireSolution`/`RaiseEvents` are reduced to a count of new solutions.
- `GetObjectiveValues`' handling of non-number data is modelled only as skipping it. `GH_Number` is the only kind of goo modelled.
- The `DateTime` columns are copied as opaque values. The cast of a `DBNull` completion time is not modelled.
- Sqlite operations that throw: the model says which exception ends the reading, not the partly filled summaries left behind, because the caller discards them.
- Solver.Algorithm.Solve and Solver.Algorithm.CheckExistStudyParameter require distinct stored study names. Optuna's storage keeps study names unique, so the duplicate-key exception of `Dictionary.Add` (Tunny/Solver/Algorithm.cs:146) cannot arise.
- SqliteStorage.ReadUserAttributes and the other readers require distinct summary objects and no attribute already present. Those hold for the summaries `GetStudy` has just built.
- `GetStudySummaries` returns the summaries without their trials. `GetTrials` is a separate operation, as in the source.
- SqliteStorage.ParseTrialState: the definition of `TrialState` is not part of this model. Its members are assumed to be Optuna's five states, spelt `Running`, `Complete`, `Pruned`, `Fail` and `Waiting`, with codes 0 to 4. Under that assumption, Optuna's upper-case `state` text (`COMPLETE`) is read as `Running`; `SqliteStorage.ParseUpperCaseIsRunning` states this.
- SqliteStorage.JsonListRoundTrip and SqliteStorage.JsonStringRoundTrip hold only for names of printable ASCII without a backslash. Optuna stores attributes as `json.dumps` text, which escapes every other character, and the reader does not undo escapes, so such a name comes back as its escape text; `SqliteStorage.EscapedNameReadsAsEscapes` shows this for "高さ". A JSON decoder is not part of this model.
- SqliteStorage.ParseInt32: the trailing NUL characters that `Int32.Parse` also accepts are not modelled.
- Solver.Algorithm.SetResultValues: `XOpt` holds a `seq`, so sharing the `xTest` array between `XOpt` and later writes is not modelled.
- Solver.Algorithm.SetResultValues: the trials a person completes through the dashboard in a human-in-the-loop run are one input, `completedByHand`, seen only when the result is read. When they were completed, and their effect on the best values shown during the run, are not modelled.
- Backend.Study.Tell: which tells raise is a given predicate, `tellFails`, and a failing tell records nothing. Optuna's own bookkeeping for such a trial, which may mark it failed, is not modelled.
- Solver.Algorithm.constructor: `EndState` is left at the enum's default, whose definition is not part of this model, so the constructor promises nothing about it; `Solve` sets it to Error before anything reads it. A null `XOpt` is `None`.
- Solver.Algorithm.SetNonGeometricAttr: the `double.Parse` of each `Constraint` text (Tunny/Solver/Algorithm.cs:452) is not modelled, and neither is the FormatException it throws for text that is not a number. `Backend.FloatList` keeps the texts as they are.
- SqliteStorage.GetStudy: a new `StudySummary` is given an empty trial list. Tunny/Storage/SqliteStorage.cs:117-123 does not set `Trials`, and the `StudySummary` class is not part of this model; if its `Trials` started null, `GetTrials` would throw NullReferenceException at Tunny/Storage/SqliteStorage.cs:53.
- A C# `double` is an exact real or NaN. Rounding and infinities are not modelled.

## Findings

| source | as written | input that shows it | evidently intended | confidence | as-written member | corrected member |
|---|---|---|---|---|---|---|
| Tunny/Solver/Algorithm.cs:496-499 | warns that constraints are ignored when `samplerType > 4 && hasConstraints` | type 4 (CMA-ES, built without constraints) with constraints gets no warning; type 7 (TPE, built with them) does | warn exactly when constraints exist and the chosen sampler is built without them | medium, not executed | SolverRules.ConstraintWarningAsWrittenMisfires | SolverRules.SetSamplerSettings |
