/**
 * The in-memory part of Tunny's SQLite study reader (`Tunny/Storage/SqliteStorage.cs`):
 * rows of the `studies`, `study_user_attributes`, `study_system_attributes` and `trials`
 * tables, given as sequences in reader order, are grouped into study summaries.
 *
 * The summaries are objects that the reader loops find by study id and change in place,
 * so `StudySummary` is a class and a list of summaries is a sequence of references.
 */
module SqliteStorage {
  import opened Wrappers
  import opened Strings
  import Int32

  /** A point in time as stored by Optuna; only copied here. */
  type DateTime = int

  /**
   * Tunny's `TrialState`, an enum over `int`: every `int` is a value of it, and five of
   * them carry Optuna's state names in Optuna's order.
   */
  newtype TrialState = code: int | Int32.Min <= code <= Int32.Max

  const Running: TrialState := 0
  const Complete: TrialState := 1
  const Pruned: TrialState := 2
  const Fail: TrialState := 3
  const Waiting: TrialState := 4

  /** The member names, indexed by their codes. */
  const StateNames: seq<string> := ["Running", "Complete", "Pruned", "Fail", "Waiting"]

  /** The code of the member called exactly `name` (ordinal comparison), if there is one. */
  function CodeOfName(name: string): (r: Option<int>)
    ensures r.Some? <==> name in StateNames
    ensures r.Some? ==> 0 <= r.value < |StateNames| && StateNames[r.value] == name
  {
    if name == "Running" then Some(0)
    else if name == "Complete" then Some(1)
    else if name == "Pruned" then Some(2)
    else if name == "Fail" then Some(3)
    else if name == "Waiting" then Some(4)
    else None
  }

  /** A piece of the names list that names a member once trimmed. */
  predicate IsStateName(piece: string)
  {
    Trim(piece) in StateNames
  }

  /** Bitwise or of two codes below 8, as the flags path of `Enum.TryParse` combines them. */
  function BitOr(a: int, b: int): (r: int)
    requires 0 <= a < 8 && 0 <= b < 8
    ensures 0 <= r < 8
    ensures a <= r && b <= r
    ensures a == 0 ==> r == b
  {
    var r := ((a as bv3) | (b as bv3)) as int;
    assert a <= r && b <= r by {
      assert (a as bv3) & ((a as bv3) | (b as bv3)) == a as bv3;
      assert (b as bv3) & ((a as bv3) | (b as bv3)) == b as bv3;
    }
    r
  }

  /**
   * The names path of `Enum.TryParse`: every piece, trimmed, must name a member, and
   * the codes of the members named are or-ed together.
   */
  function NamesCode(pieces: seq<string>): (r: Option<int>)
    ensures r.Some? <==> forall k :: 0 <= k < |pieces| ==> IsStateName(pieces[k])
    ensures r.Some? ==> 0 <= r.value < 8
  {
    if |pieces| == 0 then Some(0)
    else
      var front := pieces[..|pieces| - 1];
      var last := pieces[|pieces| - 1];
      assert forall k :: 0 <= k < |front| ==> front[k] == pieces[k];
      assert CodeOfName(Trim(last)).Some? <==> IsStateName(last);
      match (NamesCode(front), CodeOfName(Trim(last)))
      case (Some(a), Some(b)) => Some(BitOr(a, b))
      case _ => None
  }

  /** A list of one piece gives the code that piece names. */
  lemma NamesCodeSingle(piece: string)
    ensures NamesCode([piece]) == CodeOfName(Trim(piece))
  {
    assert [piece][..0] == [];
  }

  predicate IsAsciiDigit(c: char)
  {
    '0' <= c <= '9'
  }

  predicate AllDigits(s: string)
  {
    forall k :: 0 <= k < |s| ==> IsAsciiDigit(s[k])
  }

  /** The number written by a run of ASCII decimal digits. */
  function DigitsValue(s: string): nat
    requires AllDigits(s)
  {
    if |s| == 0 then 0 else DigitsValue(s[..|s| - 1]) * 10 + (s[|s| - 1] as int - '0' as int)
  }

  /**
   * `Int32.Parse` with `NumberStyles.Integer` on text without surrounding white space:
   * an optional leading sign and at least one decimal digit, its value within range.
   */
  function ParseInt32(text: string): (r: Result<int, string>)
    ensures r.Success? ==> Int32.InRange(r.value)
    ensures r.Failure? ==> r.error in {"FormatException", "OverflowException"}
    ensures r == Failure("FormatException") <==> !IntegerText(text)
  {
    var signed := |text| > 0 && (text[0] == '-' || text[0] == '+');
    var digits := if signed then text[1..] else text;
    if |digits| == 0 || !AllDigits(digits) then Failure("FormatException")
    else
      var v: int := DigitsValue(digits);
      var n := if signed && text[0] == '-' then -v else v;
      if Int32.InRange(n) then Success(n) else Failure("OverflowException")
  }

  /** An optional sign followed by at least one ASCII decimal digit. */
  predicate IntegerText(text: string)
  {
    if |text| > 0 && (text[0] == '-' || text[0] == '+') then |text| > 1 && AllDigits(text[1..])
    else |text| > 0 && AllDigits(text)
  }

  /** The ASCII digit of a value below ten. */
  function DigitChar(d: nat): (c: char)
    requires d < 10
    ensures IsAsciiDigit(c) && c as int - '0' as int == d
  {
    ('0' as int + d) as char
  }

  /** The decimal digits of `v`, without leading zeros: how `int.ToString()` writes a non-negative value. */
  function DigitsText(v: nat): string
  {
    if v < 10 then [DigitChar(v)] else DigitsText(v / 10) + [DigitChar(v % 10)]
  }

  /** `n.ToString()` in the invariant culture: a minus sign for a negative value, then the digits. */
  function IntText(n: int): string
  {
    if n < 0 then "-" + DigitsText(-n) else DigitsText(n)
  }

  /** The digits written for `v` read back as `v`. */
  lemma {:induction false} DigitsTextValue(v: nat)
    ensures |DigitsText(v)| > 0 && AllDigits(DigitsText(v)) && DigitsValue(DigitsText(v)) == v
  {
    if v < 10 {
      assert DigitsText(v)[..0] == "";
    } else {
      DigitsTextValue(v / 10);
      DigitsValueSnoc(DigitsText(v / 10), DigitChar(v % 10));
    }
  }

  /** Every `int`, written out, parses back to itself. */
  lemma ParseInt32OfText(n: int)
    requires Int32.InRange(n)
    ensures ParseInt32(IntText(n)) == Success(n)
  {
    var t := IntText(n);
    if n < 0 {
      var d := DigitsText(-n);
      DigitsTextValue(-n);
      assert t == "-" + d && t[0] == '-' && t[1..] == d;
      var v: int := DigitsValue(d);
      assert v == -n;
    } else {
      DigitsTextValue(n);
      assert t[0] != '-' && t[0] != '+';
    }
  }

  /** A state text holding a written-out `int`, give or take white space, is that number as the state. */
  lemma ParseNumberText(text: string, n: int)
    requires Int32.InRange(n) && Trim(text) == IntText(n)
    ensures ParseTrialState(text) == n as TrialState
  {
    ParseInt32OfText(n);
    if n >= 0 {
      DigitsTextValue(n);
    }
  }

  /** Trimmed text that `Enum.TryParse` reads as a number: it starts with a digit or a sign. */
  predicate StartsNumeric(t: string)
  {
    |t| > 0 && (IsAsciiDigit(t[0]) || t[0] == '-' || t[0] == '+')
  }

  /** The names path on trimmed text; a failure leaves the default, Running. */
  function ParseNames(t: string): (state: TrialState)
    ensures 0 <= state < 8
  {
    match NamesCode(Split(t, ','))
    case Some(c) => c as TrialState
    case None => Running
  }

  /**
   * `Enum.TryParse(text, out state)` with the result ignored: the text is trimmed; empty
   * text fails; text starting with a digit or a sign is read as an `int`, which is then the
   * state whatever its value, and an overflow fails, while text that is not a number falls
   * through to the names; any other text is a comma-separated list of member names, each
   * trimmed and matched case-sensitively, whose codes are or-ed. A failure leaves
   * `default(TrialState)`, Running. (A leading non-ASCII digit, which `char.IsDigit` also
   * accepts, fails as a number and is then read as names, as here.)
   */
  function ParseTrialState(text: string): (state: TrialState)
    ensures !StartsNumeric(Trim(text)) ==> 0 <= state < 8
  {
    var t := Trim(text);
    if t == "" then Running
    else if StartsNumeric(t) then
      match ParseInt32(t)
      case Success(n) => n as TrialState
      case Failure(e) => if e == "FormatException" then ParseNames(t) else Running
    else
      ParseNames(t)
  }

  /** Text that is a member's name, give or take surrounding white space, parses to that member. */
  lemma ParseStateName(text: string, k: nat)
    requires k < |StateNames| && Trim(text) == StateNames[k]
    ensures ParseTrialState(text) == k as TrialState
  {
    var t := Trim(text);
    StateNameShape(k);
    SplitWithout(t, ',');
    TrimmedIsOwnTrim(t);
    NamesCodeSingle(t);
  }

  /** White space around the text makes no difference. */
  lemma ParseIgnoresSurroundingWhiteSpace(text: string)
    ensures ParseTrialState(Trim(text)) == ParseTrialState(text)
  {
    TrimTwice(text);
  }

  /** A member's code as text is that member. */
  lemma ParseMemberCode()
    ensures ParseTrialState("1") == Complete
  {
    TrimmedIsOwnTrim("1");
    assert "1"[..0] == "";
  }

  /** A number is taken as the state even when no member has that code. */
  lemma ParseUndefinedCode()
    ensures ParseTrialState(" 7") == 7 as TrialState
    ensures ParseTrialState("-1") == -1 as TrialState
  {
    assert TrimStart(" 7") == TrimStart("7") == "7";
    TrimmedIsOwnTrim("-1");
    assert "7"[..0] == "" && "-1"[1..] == "1" && "1"[..0] == "";
  }

  /** Appending a digit multiplies the value by ten and adds the digit. */
  lemma DigitsValueSnoc(s: string, c: char)
    requires AllDigits(s) && IsAsciiDigit(c)
    ensures AllDigits(s + [c])
    ensures DigitsValue(s + [c]) == DigitsValue(s) * 10 + (c as int - '0' as int)
  {
    assert (s + [c])[..|s|] == s;
  }

  lemma DigitsOfTwoToThe31()
    ensures AllDigits("2147483648") && DigitsValue("2147483648") == 2147483648
  {
    var s := "2";
    assert s[..0] == "";
    DigitsValueSnoc(s, '1');
    s := s + ['1'];
    DigitsValueSnoc(s, '4');
    s := s + ['4'];
    DigitsValueSnoc(s, '7');
    s := s + ['7'];
    DigitsValueSnoc(s, '4');
    s := s + ['4'];
    DigitsValueSnoc(s, '8');
    s := s + ['8'];
    DigitsValueSnoc(s, '3');
    s := s + ['3'];
    DigitsValueSnoc(s, '6');
    s := s + ['6'];
    DigitsValueSnoc(s, '4');
    s := s + ['4'];
    DigitsValueSnoc(s, '8');
    s := s + ['8'];
    assert s == "2147483648";
  }

  /** A number out of `int` range fails, leaving Running. */
  lemma ParseOverflowIsRunning()
    ensures ParseTrialState("2147483648") == Running
  {
    var t := "2147483648";
    TrimmedIsOwnTrim(t);
    DigitsOfTwoToThe31();
    assert ParseInt32(t) == Failure("OverflowException");
  }

  /** Names are matched case-sensitively: Optuna's upper-case spelling is not a member name. */
  lemma ParseUpperCaseIsRunning()
    ensures ParseTrialState("COMPLETE") == Running
  {
    TrimmedIsOwnTrim("COMPLETE");
    SplitWithout("COMPLETE", ',');
    NamesCodeSingle("COMPLETE");
  }

  /** A name that stays one piece, is its own trim and does not read as a number. */
  predicate PlainName(name: string)
  {
    name != "" && ',' !in name && !IsWhiteSpace(name[0]) && !IsWhiteSpace(name[|name| - 1])
    && !StartsNumeric(name)
  }

  /** Every member name is plain, and names its own code. */
  lemma StateNameShape(k: nat)
    requires k < |StateNames|
    ensures PlainName(StateNames[k])
    ensures CodeOfName(StateNames[k]) == Some(k as int)
  {
    if k == 0 {
    } else if k == 1 {
    } else if k == 2 {
    } else if k == 3 {
    } else {
    }
  }

  lemma PairIsTrimmed(a: string, b: string)
    requires PlainName(a) && PlainName(b)
    ensures Trim(a + ", " + b) == a + ", " + b
    ensures !StartsNumeric(a + ", " + b)
  {
    var t := a + ", " + b;
    assert t[0] == a[0] && t[|t| - 1] == b[|b| - 1];
    TrimmedIsOwnTrim(t);
  }

  lemma {:induction false} PairSplits(a: string, b: string)
    requires PlainName(a) && PlainName(b)
    ensures Split(a + ", " + b, ',') == [a, " " + b]
  {
    var rest := ", " + b;
    assert a + ", " + b == a + rest;
    SplitPrefix(a, rest, ',');
    assert rest[0] == ',' && rest[1..] == " " + b;
    assert ',' !in " " + b;
    SplitWithout(" " + b, ',');
    assert Split(rest, ',') == [""] + [" " + b];
    assert a + "" == a;
  }

  lemma SpacedNameTrims(b: string)
    requires PlainName(b)
    ensures Trim(" " + b) == b
  {
    assert (" " + b)[1..] == b;
    assert TrimStart(" " + b) == TrimStart(b);
    TrimmedIsOwnTrim(b);
  }

  /** Two plain names separated by a comma and a space give the or of what each gives. */
  lemma {:induction false} ParsePairOfNames(a: string, b: string, x: nat, y: nat)
    requires PlainName(a) && PlainName(b)
    requires CodeOfName(a) == Some(x as int) && CodeOfName(b) == Some(y as int)
    ensures x < 8 && y < 8
    ensures ParseTrialState(a + ", " + b) == BitOr(x, y) as TrialState
  {
    PairIsTrimmed(a, b);
    PairSplits(a, b);
    SpacedNameTrims(b);
    assert NamesCode([a, " " + b]) == Some(BitOr(x, y)) by {
      assert [a, " " + b][..1] == [a];
      TrimmedIsOwnTrim(a);
      NamesCodeSingle(a);
    }
  }

  /** A list of two member names gives the or of their codes. */
  lemma ParseNameList(i: nat, j: nat)
    requires i < |StateNames| && j < |StateNames|
    ensures ParseTrialState(StateNames[i] + ", " + StateNames[j]) == BitOr(i, j) as TrialState
  {
    StateNameShape(i);
    StateNameShape(j);
    ParsePairOfNames(StateNames[i], StateNames[j], i, j);
  }

  /** A `studies` row; ids are SQLite integers (`long`). */
  datatype StudyRow = StudyRow(studyId: int, studyName: string)

  /** A `study_user_attributes` or `study_system_attributes` row. */
  datatype AttributeRow = AttributeRow(studyId: int, key: string, valueJson: string)

  /** A `trials` row. */
  datatype TrialRow = TrialRow(studyId: int, trialId: int, number: int, state: string,
                               datetimeStart: DateTime, datetimeComplete: DateTime)

  /** Tunny's `Trial` as a study summary lists it. */
  datatype Trial = Trial(trialId: int, number: int, state: TrialState, datetimeStart: DateTime, datetimeComplete: DateTime)

  const VariableNamesKey := "variable_names"
  const MetricNamesKey := "study:metric_names"

  /** Tunny's `StudySummary`. */
  class StudySummary {
    const studyId: int
    const studyName: string
    var userAttributes: map<string, seq<string>>
    var systemAttributes: map<string, seq<string>>
    var trials: seq<Trial>
    var nTrials: int

    constructor (studyId: int, studyName: string)
      ensures this.studyId == studyId && this.studyName == studyName
      ensures userAttributes == map[] && systemAttributes == map[] && trials == [] && nTrials == 0
    {
      this.studyId, this.studyName := studyId, studyName;
      userAttributes, systemAttributes, trials, nTrials := map[], map[], [], 0;
    }
  }

  // ---------------------------------------------------------------- value_json lists

  /** `valueJson.Replace("\"", "").Replace("[", "").Replace("]", "").Replace(" ", "")`. */
  function StripJson(valueJson: string): string
  {
    RemoveAll(RemoveAll(RemoveAll(RemoveAll(valueJson, '"'), '['), ']'), ' ')
  }

  /** The stripped text keeps exactly the characters of the original other than quotes, brackets and spaces. */
  lemma StripJsonMembers(valueJson: string)
    ensures forall c :: c in StripJson(valueJson) <==> c in valueJson && c != '"' && c != '[' && c != ']' && c != ' '
  {
    var a := RemoveAll(valueJson, '"');
    var b := RemoveAll(a, '[');
    var c := RemoveAll(b, ']');
    RemoveAllMembers(valueJson, '"');
    RemoveAllMembers(a, '[');
    RemoveAllMembers(b, ']');
    RemoveAllMembers(c, ' ');
  }

  /** The list of names an attribute's `value_json` is read as: the stripped text split at commas. */
  function ParseValueJson(valueJson: string): (names: seq<string>)
    ensures |names| >= 1
  {
    Split(StripJson(valueJson), ',')
  }

  /** No name contains a comma or any character the stripping removes, and every character comes from the text. */
  lemma ParsedNamesAreClean(valueJson: string)
    ensures forall i :: 0 <= i < |ParseValueJson(valueJson)| ==>
              var n := ParseValueJson(valueJson)[i];
              ',' !in n && '"' !in n && '[' !in n && ']' !in n && ' ' !in n
    ensures forall i, c :: 0 <= i < |ParseValueJson(valueJson)| && c in ParseValueJson(valueJson)[i] ==> c in valueJson
  {
    var names := ParseValueJson(valueJson);
    SplitPieces(StripJson(valueJson), ',');
    StripJsonMembers(valueJson);
    forall i | 0 <= i < |names|
      ensures CleanName(names[i])
    {
      forall c | c in names[i]
        ensures c != '"' && c != '[' && c != ']' && c != ' '
      {
        assert c in StripJson(valueJson);
      }
    }
  }

  /** There is one more name than there are commas after stripping, and joining the names gives the stripped text. */
  lemma ParsedNamesRejoin(valueJson: string)
    ensures |ParseValueJson(valueJson)| == Count(StripJson(valueJson), ',') + 1
    ensures Join(ParseValueJson(valueJson), ",") == StripJson(valueJson)
  {
    SplitLength(StripJson(valueJson), ',');
    JoinSplit(StripJson(valueJson), ',');
  }

  /** A name that survives stripping and splitting unchanged. */
  predicate CleanName(n: string)
  {
    ',' !in n && '"' !in n && '[' !in n && ']' !in n && ' ' !in n
  }

  /**
   * A name that `json.dumps` writes as it is: printable ASCII without a backslash (and,
   * by `CleanName`, without a quote). Any other character is written as an escape.
   */
  predicate JsonPlain(n: string)
  {
    forall c :: c in n ==> ' ' < c <= '~' && c != '\\'
  }

  /** `json.dumps` of a string needing no escapes. */
  function JsonString(s: string): string
  {
    "\"" + s + "\""
  }

  /** The items of `json.dumps` of a list of strings, separated by `", "`. */
  function JsonItems(names: seq<string>): string
  {
    if |names| == 0 then ""
    else if |names| == 1 then JsonString(names[0])
    else JsonString(names[0]) + ", " + JsonItems(names[1..])
  }

  /** `json.dumps` of a list of strings needing no escapes. */
  function JsonList(names: seq<string>): string
  {
    "[" + JsonItems(names) + "]"
  }

  lemma StripJsonAppend(a: string, b: string)
    ensures StripJson(a + b) == StripJson(a) + StripJson(b)
  {
    RemoveAllAppend(a, b, '"');
    RemoveAllAppend(RemoveAll(a, '"'), RemoveAll(b, '"'), '[');
    RemoveAllAppend(RemoveAll(RemoveAll(a, '"'), '['), RemoveAll(RemoveAll(b, '"'), '['), ']');
    RemoveAllAppend(RemoveAll(RemoveAll(RemoveAll(a, '"'), '['), ']'),
                    RemoveAll(RemoveAll(RemoveAll(b, '"'), '['), ']'), ' ');
  }

  /** Text without the stripped characters is left as it is. */
  lemma StripJsonKeeps(s: string)
    requires '"' !in s && '[' !in s && ']' !in s && ' ' !in s
    ensures StripJson(s) == s
  {
    RemoveAllAbsent(s, '"');
    RemoveAllAbsent(s, '[');
    RemoveAllAbsent(s, ']');
    RemoveAllAbsent(s, ' ');
  }

  /** The punctuation `json.dumps` adds around and between strings. */
  lemma StripJsonPunctuation()
    ensures StripJson("\"") == "" && StripJson("[") == "" && StripJson("]") == ""
    ensures StripJson(", ") == ","
  {
    StripJsonBrackets();
    StripJsonSeparator();
  }

  lemma StripJsonBrackets()
    ensures StripJson("\"") == "" && StripJson("[") == "" && StripJson("]") == ""
  {
    assert RemoveAll("\"", '"') == "";
    assert RemoveAll("[", '[') == "";
    assert RemoveAll("]", ']') == "";
  }

  lemma StripJsonSeparator()
    ensures StripJson(", ") == ","
  {
    RemoveAllAbsent(", ", '"');
    RemoveAllAbsent(", ", '[');
    RemoveAllAbsent(", ", ']');
    assert RemoveAll(" ", ' ') == "";
    assert RemoveAll(", ", ' ') == "," + RemoveAll(" ", ' ');
  }

  lemma StripJsonString(s: string)
    requires '"' !in s && '[' !in s && ']' !in s && ' ' !in s
    ensures StripJson(JsonString(s)) == s
  {
    var q := "\"";
    assert JsonString(s) == (q + s) + q;
    StripJsonAppend(q + s, q);
    StripJsonAppend(q, s);
    StripJsonKeeps(s);
    StripJsonPunctuation();
  }

  lemma {:induction false} StripJsonItems(names: seq<string>)
    requires forall i :: 0 <= i < |names| ==> CleanName(names[i])
    ensures StripJson(JsonItems(names)) == Join(names, ",")
    decreases |names|
  {
    if |names| == 1 {
      StripJsonString(names[0]);
    } else if |names| > 1 {
      var head, tail := JsonString(names[0]), JsonItems(names[1..]);
      assert JsonItems(names) == (head + ", ") + tail;
      StripJsonItems(names[1..]);
      StripJsonString(names[0]);
      StripJsonAppend(head + ", ", tail);
      StripJsonAppend(head, ", ");
      StripJsonPunctuation();
    }
  }

  /** A metric-name list written by `json.dumps` is read back as the same names. */
  lemma {:induction false} JsonListRoundTrip(names: seq<string>)
    requires |names| > 0
    requires forall i :: 0 <= i < |names| ==> CleanName(names[i]) && JsonPlain(names[i])
    ensures ParseValueJson(JsonList(names)) == names
  {
    var items := JsonItems(names);
    assert JsonList(names) == ("[" + items) + "]";
    StripJsonAppend("[" + items, "]");
    StripJsonAppend("[", items);
    StripJsonPunctuation();
    StripJsonItems(names);
    assert StripJson(JsonList(names)) == Join(names, ",");
    forall i | 0 <= i < |names|
      ensures ',' !in names[i]
    {
    }
    SplitJoin(names, ',');
  }

  /** The comma-joined variable names, written by `json.dumps` as one string, are read back as the names. */
  lemma {:induction false} JsonStringRoundTrip(names: seq<string>)
    requires |names| > 0
    requires forall i :: 0 <= i < |names| ==> CleanName(names[i]) && JsonPlain(names[i])
    ensures ParseValueJson(JsonString(Join(names, ","))) == names
  {
    var joined := Join(names, ",");
    JoinExcludes(names, ",", '"');
    JoinExcludes(names, ",", '[');
    JoinExcludes(names, ",", ']');
    JoinExcludes(names, ",", ' ');
    StripJsonString(joined);
    forall i | 0 <= i < |names|
      ensures ',' !in names[i]
    {
    }
    SplitJoin(names, ',');
  }

  /** What `json.dumps` writes for the name "高さ": its two characters as `\u` escapes. */
  const EscapedHeight: string := "\\u9ad8\\u3055"

  /**
   * A name with characters `json.dumps` escapes is not read back: "高さ" is stored as
   * `["\u9ad8\u3055"]`, and the reader keeps the twelve characters of the escapes.
   */
  lemma EscapedNameReadsAsEscapes()
    ensures ParseValueJson(JsonList([EscapedHeight])) == [EscapedHeight]
    ensures EscapedHeight != "高さ"
  {
    assert EscapedHeight[0] == '\\';
    SingleNameReadsBack(EscapedHeight);
  }

  /** One name without the stripped characters or a comma, written as a one-item list, is read back as it is. */
  lemma SingleNameReadsBack(name: string)
    requires CleanName(name)
    ensures ParseValueJson(JsonList([name])) == [name]
  {
    var items := JsonItems([name]);
    assert items == JsonString(name);
    StripJsonString(name);
    assert JsonList([name]) == ("[" + items) + "]";
    StripJsonAppend("[" + items, "]");
    StripJsonAppend("[", items);
    StripJsonPunctuation();
    assert StripJson(JsonList([name])) == name;
    SplitWithout(name, ',');
  }

  /** An empty list is read as one empty name. */
  lemma EmptyListReadsAsOneEmptyName()
    ensures ParseValueJson("[]") == [""]
  {
    assert StripJson("[]") == "";
  }

  // ---------------------------------------------------------------- finding summaries

  /** The summaries' ids, in list order. */
  function Ids(summaries: seq<StudySummary>): (ids: seq<int>)
    ensures |ids| == |summaries| && forall i :: 0 <= i < |ids| ==> ids[i] == summaries[i].studyId
  {
    seq(|summaries|, i requires 0 <= i < |summaries| => summaries[i].studyId)
  }

  /** `Find(x => x.StudyId == id)`: the position of the first summary with that id. */
  function FindId(ids: seq<int>, id: int): (r: Option<nat>)
    ensures r.Some? ==> r.value < |ids| && ids[r.value] == id
    ensures r.Some? ==> forall j :: 0 <= j < r.value ==> ids[j] != id
    ensures r.None? <==> id !in ids
  {
    if |ids| == 0 then None
    else if ids[0] == id then Some(0)
    else match FindId(ids[1..], id)
      case None => None
      case Some(k) => Some(k + 1)
  }

  predicate DistinctSummaries(summaries: seq<StudySummary>)
  {
    forall i, j :: 0 <= i < j < |summaries| ==> summaries[i] != summaries[j]
  }

  /**
   * The rows with `key` can be recorded without an exception: each has a summary with its
   * id to add to, and no two of them name the same study (the second `Dictionary.Add` would throw).
   */
  predicate AttributeRowsFit(ids: seq<int>, rows: seq<AttributeRow>, key: string)
  {
    AttributeRowsFitBefore(ids, rows, key, |rows|)
  }

  /** `AttributeRowsFit` of the first `n` rows. */
  predicate AttributeRowsFitBefore(ids: seq<int>, rows: seq<AttributeRow>, key: string, n: nat)
    requires n <= |rows|
  {
    && (forall k :: 0 <= k < n && rows[k].key == key ==> rows[k].studyId in ids)
    && (forall k1, k2 :: 0 <= k1 < k2 < n && rows[k1].key == key && rows[k2].key == key ==>
          rows[k1].studyId != rows[k2].studyId)
  }

  /** The `value_json` of the last row with `key` whose id is found at position `i`, if any. */
  function LastJson(ids: seq<int>, rows: seq<AttributeRow>, key: string, i: nat): Option<string>
  {
    if |rows| == 0 then None
    else
      var last := rows[|rows| - 1];
      if last.key == key && FindId(ids, last.studyId) == Some(i) then Some(last.valueJson)
      else LastJson(ids, rows[..|rows| - 1], key, i)
  }

  /**
   * The attributes of the summary at position `i` after reading `rows`, starting from
   * `initial`: the list parsed from the last row with `key` for it, if there is one.
   */
  function Recorded(initial: map<string, seq<string>>, ids: seq<int>, rows: seq<AttributeRow>, key: string, i: nat)
    : (m: map<string, seq<string>>)
    ensures m.Keys <= initial.Keys + {key}
  {
    match LastJson(ids, rows, key, i)
    case None => initial
    case Some(valueJson) => initial[key := ParseValueJson(valueJson)]
  }

  /** Without a row for the summary at `i`, its attributes stay as they were. */
  lemma {:induction false} RecordedUntouched(initial: map<string, seq<string>>, ids: seq<int>, rows: seq<AttributeRow>, key: string, i: nat)
    requires forall k :: 0 <= k < |rows| && rows[k].key == key ==> FindId(ids, rows[k].studyId) != Some(i)
    ensures LastJson(ids, rows, key, i).None?
    ensures Recorded(initial, ids, rows, key, i) == initial
    decreases |rows|
  {
    if |rows| > 0 {
      RecordedUntouched(initial, ids, rows[..|rows| - 1], key, i);
    }
  }

  /** The row with `key` for a study gives that study's summary exactly the row's parsed list. */
  lemma RecordedValue(initial: map<string, seq<string>>, ids: seq<int>, rows: seq<AttributeRow>, key: string, k: nat)
    requires k < |rows| && rows[k].key == key && rows[k].studyId in ids
    requires AttributeRowsFit(ids, rows, key)
    ensures var i := FindId(ids, rows[k].studyId).value;
            key in Recorded(initial, ids, rows, key, i) &&
            Recorded(initial, ids, rows, key, i)[key] == ParseValueJson(rows[k].valueJson)
  {
    RecordedLastWrite(ids, rows, key, k);
  }

  /** A row with `key` that no later row with `key` for the same study overrides is the one that counts. */
  lemma {:induction false} RecordedLastWrite(ids: seq<int>, rows: seq<AttributeRow>, key: string, k: nat)
    requires k < |rows| && rows[k].key == key && rows[k].studyId in ids
    requires forall m :: k < m < |rows| && rows[m].key == key ==> rows[m].studyId != rows[k].studyId
    ensures LastJson(ids, rows, key, FindId(ids, rows[k].studyId).value) == Some(rows[k].valueJson)
    decreases |rows|
  {
    var i := FindId(ids, rows[k].studyId).value;
    var n := |rows|;
    var prefix := rows[..n - 1];
    if k < n - 1 {
      assert prefix[k] == rows[k];
      RecordedLastWrite(ids, prefix, key, k);
      var last := rows[n - 1];
      assert !(last.key == key && FindId(ids, last.studyId) == Some(i)) by {
        if last.key == key {
          assert last.studyId != rows[k].studyId;
        }
      }
    }
  }

  /** Reading one more row replaces the entry of the summary at `i` exactly when the row has `key` and its id is found there. */
  lemma RecordedSnoc(initial: map<string, seq<string>>, ids: seq<int>, rows: seq<AttributeRow>, key: string, k: nat, i: nat)
    requires k < |rows|
    ensures Recorded(initial, ids, rows[..k + 1], key, i)
            == if rows[k].key == key && FindId(ids, rows[k].studyId) == Some(i)
               then initial[key := ParseValueJson(rows[k].valueJson)]
               else Recorded(initial, ids, rows[..k], key, i)
  {
    assert rows[..k + 1][..k] == rows[..k];
  }

  /** A row with `key` whose id is found at `i` leaves `key` among the attributes of the summary at `i`. */
  lemma {:induction false} RecordedFromRow(initial: map<string, seq<string>>, ids: seq<int>, rows: seq<AttributeRow>, key: string, i: nat, m: nat)
    ensures m < |rows| && rows[m].key == key && FindId(ids, rows[m].studyId) == Some(i) ==>
              key in Recorded(initial, ids, rows, key, i)
    decreases |rows|
  {
    if m < |rows| && rows[m].key == key && FindId(ids, rows[m].studyId) == Some(i) && m < |rows| - 1 {
      var prefix := rows[..|rows| - 1];
      assert prefix[m] == rows[m];
      RecordedFromRow(initial, ids, prefix, key, i, m);
    }
  }

  /** A key the summary at `i` did not start with comes from a row with that key whose id is found at `i`. */
  lemma {:induction false} RecordedKeyHasRow(initial: map<string, seq<string>>, ids: seq<int>, rows: seq<AttributeRow>, key: string, i: nat)
    returns (m: nat)
    requires key !in initial && key in Recorded(initial, ids, rows, key, i)
    ensures m < |rows| && rows[m].key == key && FindId(ids, rows[m].studyId) == Some(i)
    decreases |rows|
  {
    var n := |rows|;
    var last := rows[n - 1];
    if last.key == key && FindId(ids, last.studyId) == Some(i) {
      m := n - 1;
    } else {
      var prefix := rows[..n - 1];
      m := RecordedKeyHasRow(initial, ids, prefix, key, i);
      assert prefix[m] == rows[m];
    }
  }

  // ---------------------------------------------------------------- readers

  /**
   * `GetStudy`: one new summary per `studies` row, in row order, with the id cast
   * (unchecked) to `int`, the name copied and empty attribute dictionaries.
   */
  method GetStudy(summaries: seq<StudySummary>, rows: seq<StudyRow>) returns (result: seq<StudySummary>)
    ensures |result| == |summaries| + |rows| && result[..|summaries|] == summaries
    ensures forall p :: |summaries| <= p < |result| ==> fresh(result[p])
    ensures forall p :: |summaries| <= p < |result| ==>
              var s, row := result[p], rows[p - |summaries|];
              && s.studyId == Int32.Wrap(row.studyId) && s.studyName == row.studyName
              && s.userAttributes == map[] && s.systemAttributes == map[] && s.trials == [] && s.nTrials == 0
    ensures forall i, j :: |summaries| <= i < j < |result| ==> result[i] != result[j]
  {
    result := summaries;
    for k := 0 to |rows|
      invariant |result| == |summaries| + k && result[..|summaries|] == summaries
      invariant forall p :: |summaries| <= p < |result| ==> fresh(result[p])
      invariant forall p :: |summaries| <= p < |result| ==>
                  var s, row := result[p], rows[p - |summaries|];
                  && s.studyId == Int32.Wrap(row.studyId) && s.studyName == row.studyName
                  && s.userAttributes == map[] && s.systemAttributes == map[] && s.trials == [] && s.nTrials == 0
      invariant forall i, j :: |summaries| <= i < j < |result| ==> result[i] != result[j]
    {
      var summary := new StudySummary(Int32.Wrap(rows[k].studyId), rows[k].studyName);
      result := result + [summary];
    }
  }

  /**
   * The user-attribute loop of `GetStudyAttributes`: only `variable_names` is recorded.
   * A row for which no summary is found dereferences null, and a second row for the same
   * study makes `Dictionary.Add` throw; either exception ends the reading.
   */
  method ReadUserAttributes(summaries: seq<StudySummary>, rows: seq<AttributeRow>) returns (error: Option<string>)
    requires DistinctSummaries(summaries)
    requires forall i :: 0 <= i < |summaries| ==> VariableNamesKey !in summaries[i].userAttributes
    modifies summaries`userAttributes
    ensures error.None? <==> AttributeRowsFit(Ids(summaries), rows, VariableNamesKey)
    ensures error.None? ==> forall i :: 0 <= i < |summaries| ==>
              summaries[i].userAttributes == Recorded(old(summaries[i].userAttributes), Ids(summaries), rows, VariableNamesKey, i)
  {
    ghost var initial := seq(|summaries|, i requires 0 <= i < |summaries| reads summaries => summaries[i].userAttributes);
    for k := 0 to |rows|
      invariant AttributeRowsFitBefore(Ids(summaries), rows, VariableNamesKey, k)
      invariant forall i :: 0 <= i < |summaries| ==>
                  summaries[i].userAttributes == Recorded(initial[i], Ids(summaries), rows[..k], VariableNamesKey, i)
    {
      error := ReadUserAttributeRow(summaries, rows, k, initial);
      if error.Some? {
        return;
      }
    }
    assert rows[..|rows|] == rows;
    error := None;
  }

  /** One pass of the loop of `ReadUserAttributes`: the row at `k`. */
  method ReadUserAttributeRow(summaries: seq<StudySummary>, rows: seq<AttributeRow>, k: nat, ghost initial: seq<map<string, seq<string>>>)
    returns (error: Option<string>)
    requires DistinctSummaries(summaries) && k < |rows| && |initial| == |summaries|
    requires forall i :: 0 <= i < |summaries| ==> VariableNamesKey !in initial[i]
    requires AttributeRowsFitBefore(Ids(summaries), rows, VariableNamesKey, k)
    requires forall i :: 0 <= i < |summaries| ==>
               summaries[i].userAttributes == Recorded(initial[i], Ids(summaries), rows[..k], VariableNamesKey, i)
    modifies summaries`userAttributes
    ensures error.None? <==> AttributeRowsFitBefore(Ids(summaries), rows, VariableNamesKey, k + 1)
    ensures error.None? ==> forall i :: 0 <= i < |summaries| ==>
              summaries[i].userAttributes == Recorded(initial[i], Ids(summaries), rows[..k + 1], VariableNamesKey, i)
  {
    var ids := Ids(summaries);
    var row := rows[k];
    if row.key == VariableNamesKey {
      var values := ParseValueJson(row.valueJson);
      var found := FindId(ids, row.studyId);
      if found.None? {
        return Some("NullReferenceException");
      }
      var i := found.value;
      var summary := summaries[i];
      if VariableNamesKey in summary.userAttributes {
        var m := RecordedKeyHasRow(initial[i], ids, rows[..k], VariableNamesKey, i);
        assert rows[m] == rows[..k][m];
        return Some("ArgumentException");
      }
      forall m | 0 <= m < k && rows[m].key == VariableNamesKey
        ensures rows[m].studyId != row.studyId
      {
        RecordedFromRow(initial[i], ids, rows[..k], VariableNamesKey, i, m);
        assert rows[..k][m] == rows[m];
      }
      summary.userAttributes := summary.userAttributes[VariableNamesKey := values];
      assert AttributeRowsFitBefore(ids, rows, VariableNamesKey, k + 1);
      forall j | 0 <= j < |summaries|
        ensures summaries[j].userAttributes == Recorded(initial[j], ids, rows[..k + 1], VariableNamesKey, j)
      {
        RecordedSnoc(initial[j], ids, rows, VariableNamesKey, k, j);
        if j != i {
          assert summaries[j] != summary && summaries[j].userAttributes == old(summaries[j].userAttributes);
        }
      }
    } else {
      assert AttributeRowsFitBefore(ids, rows, VariableNamesKey, k + 1);
      forall j | 0 <= j < |summaries|
        ensures summaries[j].userAttributes == Recorded(initial[j], ids, rows[..k + 1], VariableNamesKey, j)
      {
        RecordedSnoc(initial[j], ids, rows, VariableNamesKey, k, j);
      }
    }
    error := None;
  }

  /**
   * The system-attribute loop of `GetStudyAttributes`: only `study:metric_names` is recorded.
   * A row for which no summary is found dereferences null, and a second row for the same
   * study makes `Dictionary.Add` throw; either exception ends the reading.
   */
  method ReadSystemAttributes(summaries: seq<StudySummary>, rows: seq<AttributeRow>) returns (error: Option<string>)
    requires DistinctSummaries(summaries)
    requires forall i :: 0 <= i < |summaries| ==> MetricNamesKey !in summaries[i].systemAttributes
    modifies summaries`systemAttributes
    ensures error.None? <==> AttributeRowsFit(Ids(summaries), rows, MetricNamesKey)
    ensures error.None? ==> forall i :: 0 <= i < |summaries| ==>
              summaries[i].systemAttributes == Recorded(old(summaries[i].systemAttributes), Ids(summaries), rows, MetricNamesKey, i)
  {
    ghost var initial := seq(|summaries|, i requires 0 <= i < |summaries| reads summaries => summaries[i].systemAttributes);
    for k := 0 to |rows|
      invariant AttributeRowsFitBefore(Ids(summaries), rows, MetricNamesKey, k)
      invariant forall i :: 0 <= i < |summaries| ==>
                  summaries[i].systemAttributes == Recorded(initial[i], Ids(summaries), rows[..k], MetricNamesKey, i)
    {
      error := ReadSystemAttributeRow(summaries, rows, k, initial);
      if error.Some? {
        return;
      }
    }
    assert rows[..|rows|] == rows;
    error := None;
  }

  /** One pass of the loop of `ReadSystemAttributes`: the row at `k`. */
  method ReadSystemAttributeRow(summaries: seq<StudySummary>, rows: seq<AttributeRow>, k: nat, ghost initial: seq<map<string, seq<string>>>)
    returns (error: Option<string>)
    requires DistinctSummaries(summaries) && k < |rows| && |initial| == |summaries|
    requires forall i :: 0 <= i < |summaries| ==> MetricNamesKey !in initial[i]
    requires AttributeRowsFitBefore(Ids(summaries), rows, MetricNamesKey, k)
    requires forall i :: 0 <= i < |summaries| ==>
               summaries[i].systemAttributes == Recorded(initial[i], Ids(summaries), rows[..k], MetricNamesKey, i)
    modifies summaries`systemAttributes
    ensures error.None? <==> AttributeRowsFitBefore(Ids(summaries), rows, MetricNamesKey, k + 1)
    ensures error.None? ==> forall i :: 0 <= i < |summaries| ==>
              summaries[i].systemAttributes == Recorded(initial[i], Ids(summaries), rows[..k + 1], MetricNamesKey, i)
  {
    var ids := Ids(summaries);
    var row := rows[k];
    if row.key == MetricNamesKey {
      var values := ParseValueJson(row.valueJson);
      var found := FindId(ids, row.studyId);
      if found.None? {
        return Some("NullReferenceException");
      }
      var i := found.value;
      var summary := summaries[i];
      if MetricNamesKey in summary.systemAttributes {
        var m := RecordedKeyHasRow(initial[i], ids, rows[..k], MetricNamesKey, i);
        assert rows[m] == rows[..k][m];
        return Some("ArgumentException");
      }
      forall m | 0 <= m < k && rows[m].key == MetricNamesKey
        ensures rows[m].studyId != row.studyId
      {
        RecordedFromRow(initial[i], ids, rows[..k], MetricNamesKey, i, m);
        assert rows[..k][m] == rows[m];
      }
      summary.systemAttributes := summary.systemAttributes[MetricNamesKey := values];
      assert AttributeRowsFitBefore(ids, rows, MetricNamesKey, k + 1);
      forall j | 0 <= j < |summaries|
        ensures summaries[j].systemAttributes == Recorded(initial[j], ids, rows[..k + 1], MetricNamesKey, j)
      {
        RecordedSnoc(initial[j], ids, rows, MetricNamesKey, k, j);
        if j != i {
          assert summaries[j] != summary && summaries[j].systemAttributes == old(summaries[j].systemAttributes);
        }
      }
    } else {
      assert AttributeRowsFitBefore(ids, rows, MetricNamesKey, k + 1);
      forall j | 0 <= j < |summaries|
        ensures summaries[j].systemAttributes == Recorded(initial[j], ids, rows[..k + 1], MetricNamesKey, j)
      {
        RecordedSnoc(initial[j], ids, rows, MetricNamesKey, k, j);
      }
    }
    error := None;
  }

  /** `GetStudyAttributes`: the user attributes first, then, unless that threw, the system attributes. */
  method GetStudyAttributes(summaries: seq<StudySummary>, userRows: seq<AttributeRow>, systemRows: seq<AttributeRow>)
    returns (error: Option<string>)
    requires DistinctSummaries(summaries)
    requires forall i :: 0 <= i < |summaries| ==> VariableNamesKey !in summaries[i].userAttributes
    requires forall i :: 0 <= i < |summaries| ==> MetricNamesKey !in summaries[i].systemAttributes
    modifies summaries`userAttributes, summaries`systemAttributes
    ensures error.None? <==>
              AttributeRowsFit(Ids(summaries), userRows, VariableNamesKey) && AttributeRowsFit(Ids(summaries), systemRows, MetricNamesKey)
    ensures error.None? ==> forall i :: 0 <= i < |summaries| ==>
              summaries[i].userAttributes == Recorded(old(summaries[i].userAttributes), Ids(summaries), userRows, VariableNamesKey, i)
    ensures error.None? ==> forall i :: 0 <= i < |summaries| ==>
              summaries[i].systemAttributes == Recorded(old(summaries[i].systemAttributes), Ids(summaries), systemRows, MetricNamesKey, i)
    ensures forall i :: 0 <= i < |summaries| ==>
              summaries[i].trials == old(summaries[i].trials) && summaries[i].nTrials == old(summaries[i].nTrials)
  {
    error := ReadUserAttributes(summaries, userRows);
    if error.Some? {
      return;
    }
    error := ReadSystemAttributes(summaries, systemRows);
  }

  /** The trial a `trials` row describes, with its ids cast (unchecked) from `long` to `int`. */
  function TrialOf(row: TrialRow, state: TrialState): (t: Trial)
    ensures t.state == state && t.datetimeStart == row.datetimeStart && t.datetimeComplete == row.datetimeComplete
    ensures Int32.InRange(row.trialId) && Int32.InRange(row.number) ==> t.trialId == row.trialId && t.number == row.number
  {
    Trial(Int32.Wrap(row.trialId), Int32.Wrap(row.number), state, row.datetimeStart, row.datetimeComplete)
  }

  /** What reading `row` adds to the summary at position `i`: its trial if its id is found there. */
  function Placed(ids: seq<int>, row: TrialRow, i: nat): seq<Trial>
  {
    if FindId(ids, row.studyId) == Some(i) then [TrialOf(row, ParseTrialState(row.state))] else []
  }

  /** The trials of the rows whose id is found at position `i`, in row order. */
  function TrialsAt(ids: seq<int>, rows: seq<TrialRow>, i: nat): (r: seq<Trial>)
    ensures |r| <= |rows|
  {
    if |rows| == 0 then [] else TrialsAt(ids, rows[..|rows| - 1], i) + Placed(ids, rows[|rows| - 1], i)
  }

  /** The trial list of the summary at `i`, starting as `initial`, after reading `rows` in order. */
  function TrialsAfter(initial: seq<Trial>, ids: seq<int>, rows: seq<TrialRow>, i: nat): (r: seq<Trial>)
    ensures |r| <= |initial| + |rows|
  {
    if |rows| == 0 then initial else TrialsAfter(initial, ids, rows[..|rows| - 1], i) + Placed(ids, rows[|rows| - 1], i)
  }

  lemma TrialsAfterSnoc(ids: seq<int>, rows: seq<TrialRow>, k: nat)
    requires k < |rows|
    ensures forall initial, i: nat ::
              TrialsAfter(initial, ids, rows[..k + 1], i) == TrialsAfter(initial, ids, rows[..k], i) + Placed(ids, rows[k], i)
  {
    assert rows[..k + 1][..k] == rows[..k];
  }

  /** Reading rows appends, after what the summary already had, exactly the trials found for it. */
  lemma {:induction false} TrialsAfterAppends(initial: seq<Trial>, ids: seq<int>, rows: seq<TrialRow>, i: nat)
    ensures TrialsAfter(initial, ids, rows, i) == initial + TrialsAt(ids, rows, i)
    decreases |rows|
  {
    if |rows| > 0 {
      TrialsAfterAppends(initial, ids, rows[..|rows| - 1], i);
      var prev, last := TrialsAt(ids, rows[..|rows| - 1], i), Placed(ids, rows[|rows| - 1], i);
      assert (initial + prev) + last == initial + (prev + last);
    }
  }

  /** How many of the rows have their id found at position `i`. */
  function CountAt(ids: seq<int>, rows: seq<TrialRow>, i: nat): nat
  {
    if |rows| == 0 then 0
    else CountAt(ids, rows[..|rows| - 1], i) + (if FindId(ids, rows[|rows| - 1].studyId) == Some(i) then 1 else 0)
  }

  /** The summary at `i` gets one trial per row whose id is found there. */
  lemma {:induction false} TrialsAtCount(ids: seq<int>, rows: seq<TrialRow>, i: nat)
    ensures |TrialsAt(ids, rows, i)| == CountAt(ids, rows, i)
    decreases |rows|
  {
    if |rows| > 0 {
      TrialsAtCount(ids, rows[..|rows| - 1], i);
    }
  }

  /** Every row lands in exactly one summary: the trial counts add up to the number of rows. */
  lemma {:induction false} TrialsAtPartition(ids: seq<int>, rows: seq<TrialRow>, n: nat)
    requires n <= |ids|
    requires forall k :: 0 <= k < |rows| ==> rows[k].studyId in ids[..n]
    ensures SumOfCounts(ids, rows, n) == |rows|
    decreases |rows|
  {
    if |rows| > 0 {
      var last := rows[|rows| - 1];
      TrialsAtPartition(ids, rows[..|rows| - 1], n);
      var j := FindId(ids, last.studyId).value;
      assert j < n by {
        var m :| 0 <= m < n && ids[..n][m] == last.studyId;
        assert ids[m] == last.studyId;
      }
      SumOfCountsSnoc(ids, rows, n, j);
    } else {
      SumOfCountsNoRows(ids, n);
    }
  }

  lemma {:induction false} SumOfCountsNoRows(ids: seq<int>, n: nat)
    ensures SumOfCounts(ids, [], n) == 0
  {
    if n > 0 {
      SumOfCountsNoRows(ids, n - 1);
    }
  }

  /** Total number of rows whose id is found at a position below `n`. */
  function SumOfCounts(ids: seq<int>, rows: seq<TrialRow>, n: nat): nat
  {
    if n == 0 then 0 else SumOfCounts(ids, rows, n - 1) + CountAt(ids, rows, n - 1)
  }

  lemma {:induction false} SumOfCountsSnoc(ids: seq<int>, rows: seq<TrialRow>, n: nat, j: nat)
    requires |rows| > 0 && j < n && FindId(ids, rows[|rows| - 1].studyId) == Some(j)
    ensures SumOfCounts(ids, rows, n) == SumOfCounts(ids, rows[..|rows| - 1], n) + 1
    decreases n
  {
    if n - 1 != j {
      SumOfCountsSnoc(ids, rows, n - 1, j);
    } else {
      SumOfCountsUnaffected(ids, rows, n - 1, j);
    }
  }

  lemma {:induction false} SumOfCountsUnaffected(ids: seq<int>, rows: seq<TrialRow>, n: nat, j: nat)
    requires |rows| > 0 && n <= j && FindId(ids, rows[|rows| - 1].studyId) == Some(j)
    ensures SumOfCounts(ids, rows, n) == SumOfCounts(ids, rows[..|rows| - 1], n)
    decreases n
  {
    if n > 0 {
      SumOfCountsUnaffected(ids, rows, n - 1, j);
    }
  }

  /**
   * `SetTrialInfoFromStudySummaries`: append the row's trial to the summary with its id;
   * when there is none, `Find` gives null and the dereference throws.
   */
  method SetTrialInfoFromStudySummaries(summaries: seq<StudySummary>, row: TrialRow, trialState: TrialState)
    returns (error: Option<string>)
    requires DistinctSummaries(summaries)
    requires trialState == ParseTrialState(row.state)
    modifies summaries`trials
    ensures error.Some? <==> row.studyId !in Ids(summaries)
    ensures error.None? ==> forall i :: 0 <= i < |summaries| ==>
              summaries[i].trials == old(summaries[i].trials) + Placed(Ids(summaries), row, i)
  {
    var found := FindId(Ids(summaries), row.studyId);
    if found.None? {
      return Some("NullReferenceException");
    }
    var summary := summaries[found.value];
    summary.trials := summary.trials + [TrialOf(row, trialState)];
    error := None;
  }

  /** The reading loop of `GetTrials`: each row's trial goes, in row order, to the summary with its id. */
  method AppendTrials(summaries: seq<StudySummary>, rows: seq<TrialRow>) returns (error: Option<string>)
    requires DistinctSummaries(summaries)
    modifies summaries`trials
    ensures error.None? <==> forall k :: 0 <= k < |rows| ==> rows[k].studyId in Ids(summaries)
    ensures error.None? ==> forall i :: 0 <= i < |summaries| ==>
              summaries[i].trials == TrialsAfter(old(summaries[i].trials), Ids(summaries), rows, i)
  {
    var ids := Ids(summaries);
    for k := 0 to |rows|
      invariant forall m :: 0 <= m < k ==> rows[m].studyId in ids
      invariant forall i :: 0 <= i < |summaries| ==>
                  summaries[i].trials == TrialsAfter(old(summaries[i].trials), ids, rows[..k], i)
    {
      var trialState := ParseTrialState(rows[k].state);
      error := SetTrialInfoFromStudySummaries(summaries, rows[k], trialState);
      if error.Some? {
        assert rows[k].studyId !in ids;
        return;
      }
      assert forall m :: 0 <= m < k + 1 ==> rows[m].studyId in ids;
      assert forall i :: 0 <= i < |summaries| ==>
               summaries[i].trials == TrialsAfter(old(summaries[i].trials), ids, rows[..k + 1], i) by {
        TrialsAfterSnoc(ids, rows, k);
      }
    }
    assert rows[..|rows|] == rows;
    error := None;
  }

  /** The counting loop of `GetTrials`: every summary's trial count becomes the length of its trial list. */
  method SetTrialCounts(summaries: seq<StudySummary>)
    modifies summaries`nTrials
    ensures forall i :: 0 <= i < |summaries| ==> summaries[i].nTrials == |summaries[i].trials|
  {
    for i := 0 to |summaries|
      invariant forall m :: 0 <= m < i ==> summaries[m].nTrials == |summaries[m].trials|
    {
      summaries[i].nTrials := |summaries[i].trials|;
    }
  }

  /**
   * `GetTrials`: each row's trial is appended, in row order, to the summary with the row's
   * study id; afterwards every summary's trial count is the length of its trial list.
   * A row for which no summary is found throws before the counts are set.
   */
  method GetTrials(summaries: seq<StudySummary>, rows: seq<TrialRow>) returns (error: Option<string>)
    requires DistinctSummaries(summaries)
    modifies summaries`trials, summaries`nTrials
    ensures error.None? <==> forall k :: 0 <= k < |rows| ==> rows[k].studyId in Ids(summaries)
    ensures error.None? ==> forall i :: 0 <= i < |summaries| ==>
              summaries[i].trials == TrialsAfter(old(summaries[i].trials), Ids(summaries), rows, i)
    ensures error.None? ==> forall i :: 0 <= i < |summaries| ==> summaries[i].nTrials == |summaries[i].trials|
  {
    error := AppendTrials(summaries, rows);
    if error.Some? {
      return;
    }
    SetTrialCounts(summaries);
  }

  /** The ids the summaries read from `rows` carry. */
  function StudyIds(rows: seq<StudyRow>): (ids: seq<int>)
    ensures |ids| == |rows| && forall k :: 0 <= k < |rows| ==> ids[k] == Int32.Wrap(rows[k].studyId)
  {
    seq(|rows|, k requires 0 <= k < |rows| => Int32.Wrap(rows[k].studyId))
  }

  /**
   * `GetStudySummaries`: nothing when the file or the `studies` table is missing; otherwise
   * one summary per study row with its recorded attributes, or the exception reading them
   * threw. Trials are not read.
   */
  method GetStudySummaries(fileExists: bool, tableExists: bool, studyRows: seq<StudyRow>,
                           userRows: seq<AttributeRow>, systemRows: seq<AttributeRow>)
    returns (result: Result<seq<StudySummary>, string>)
    ensures !(fileExists && tableExists) ==> result == Success([])
    ensures fileExists && tableExists ==>
              (result.Success? <==> AttributeRowsFit(StudyIds(studyRows), userRows, VariableNamesKey)
                                    && AttributeRowsFit(StudyIds(studyRows), systemRows, MetricNamesKey))
    ensures fileExists && tableExists && result.Success? ==>
              var summaries := result.value;
              && |summaries| == |studyRows| && Ids(summaries) == StudyIds(studyRows)
              && forall k :: 0 <= k < |studyRows| ==>
                   && summaries[k].studyName == studyRows[k].studyName
                   && summaries[k].userAttributes == Recorded(map[], StudyIds(studyRows), userRows, VariableNamesKey, k)
                   && summaries[k].systemAttributes == Recorded(map[], StudyIds(studyRows), systemRows, MetricNamesKey, k)
                   && summaries[k].trials == [] && summaries[k].nTrials == 0
  {
    if !fileExists {
      return Success([]);
    }
    if !tableExists {
      return Success([]);
    }
    var summaries := GetStudy([], studyRows);
    assert Ids(summaries) == StudyIds(studyRows);
    var error := GetStudyAttributes(summaries, userRows, systemRows);
    if error.Some? {
      return Failure(error.value);
    }
    result := Success(summaries);
  }
}
