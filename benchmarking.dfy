/**
 * The scoring side of the benchmark script: reading the answer text out of a backend's
 * response, judging multiple-choice answers, cutting code out of a Markdown answer, and
 * counting the results per model.
 */
module Benchmarking {
  import opened Optional
  import opened PyStr
  import opened PyJson

  // ------------------------------------------------------ response parsing

  /**
   * `extract_text_from_response`: an error wins; then the content of the first choice's
   * message when it is truthy, the first choice's text, and the `response`, `output`,
   * `text` and `raw` fields, in that order; else the whole response value. The two choice
   * values come back as they are, whatever their type; every other answer goes through
   * `str()`, so only a choice can give back something that is not a string.
   */
  function ExtractText(resp: map<string, Json>, show: Json -> string): (r: Json)
    ensures "error" in resp ==> r == Json.Str("ERROR: " + StrOf(resp["error"], show))
    ensures !r.Str? ==> "error" !in resp && GetOr(resp, "response", Obj(map[])).Obj? &&
                        ChoiceAnswer(GetOr(resp, "response", Obj(map[])).fields) == Some(r)
  {
    if "error" in resp then Json.Str("ERROR: " + StrOf(resp["error"], show))
    else
      var data := GetOr(resp, "response", Obj(map[]));
      if !data.Obj? then Json.Str(StrOf(data, show))
      else
        var d := data.fields;
        var fromChoice := ChoiceAnswer(d);
        if fromChoice.Some? then fromChoice.value
        else if "response" in d then Json.Str(StrOf(d["response"], show))
        else if "output" in d then Json.Str(StrOf(d["output"], show))
        else if "text" in d then Json.Str(StrOf(d["text"], show))
        else if "raw" in d then Json.Str(StrOf(d["raw"], show))
        else Json.Str(StrOf(data, show))
  }

  /**
   * The answer a non-empty `choices` list gives: its first element's message content
   * when that is truthy, else its `text` field.
   */
  function ChoiceAnswer(d: map<string, Json>): Option<Json> {
    if "choices" in d && d["choices"].Arr? && d["choices"].items != [] && d["choices"].items[0].Obj? then
      var choice := d["choices"].items[0].fields;
      if "message" in choice && choice["message"].Obj? &&
         Truthy(GetOr(choice["message"].fields, "content", Json.Str(""))) then
        Some(GetOr(choice["message"].fields, "content", Json.Str("")))
      else if "text" in choice then Some(choice["text"])
      else None
    else None
  }

  /** The first choice of a response object, when it is an object. */
  function FirstChoice(d: map<string, Json>): Option<map<string, Json>> {
    if "choices" !in d then None
    else match d["choices"]
      case Arr(items) => if items != [] && items[0].Obj? then Some(items[0].fields) else None
      case _ => None
  }

  /** The first choice's message content, when it is truthy. */
  function ChoiceContent(d: map<string, Json>): Option<Json> {
    match FirstChoice(d)
    case None => None
    case Some(choice) =>
      match Get(choice, "message")
      case Some(Obj(message)) =>
        var content := GetOr(message, "content", Json.Str(""));
        if Truthy(content) then Some(content) else None
      case _ => None
  }

  /** The first choice's `text` field. */
  function ChoiceText(d: map<string, Json>): Option<Json> {
    match FirstChoice(d)
    case None => None
    case Some(choice) => Get(choice, "text")
  }

  /** The first value present, in order. */
  function FirstPresent(vs: seq<Option<Json>>): (r: Option<Json>)
    ensures r.Some? <==> exists k :: 0 <= k < |vs| && vs[k].Some?
    ensures r.Some? ==> exists k :: 0 <= k < |vs| && vs[k] == r && forall j :: 0 <= j < k ==> vs[j].None?
  {
    if vs == [] then None
    else if vs[0].Some? then
      vs[0]
    else
      var r := FirstPresent(vs[1..]);
      assert forall k :: 1 <= k < |vs| ==> vs[k] == vs[1..][k - 1];
      if r.Some? then
        var k :| 0 <= k < |vs[1..]| && vs[1..][k] == r && forall j :: 0 <= j < k ==> vs[1..][j].None?;
        assert vs[k + 1] == r;
        r
      else r
  }

  /** `str(v)` of a field, when it is present. */
  function Shown(v: Option<Json>, show: Json -> string): (r: Option<Json>)
    ensures r.Some? <==> v.Some?
    ensures r.Some? ==> r.value == Json.Str(StrOf(v.value, show))
  {
    match v
    case Some(x) => Some(Json.Str(StrOf(x, show)))
    case None => None
  }

  /**
   * Where the answer may be found in a response object, most preferred first: the two
   * choice values as they are, the four fields as `str()` renders them.
   */
  function Sources(d: map<string, Json>, show: Json -> string): seq<Option<Json>> {
    [ChoiceContent(d), ChoiceText(d), Shown(Get(d, "response"), show), Shown(Get(d, "output"), show),
     Shown(Get(d, "text"), show), Shown(Get(d, "raw"), show)]
  }

  /**
   * Without an error, the answer is the first present source of the response object, or
   * the whole response value through `str()` when none is present or it is not an object.
   */
  lemma ExtractByPriority(resp: map<string, Json>, show: Json -> string)
    requires "error" !in resp
    ensures var data := GetOr(resp, "response", Obj(map[]));
            ExtractText(resp, show) ==
              if !data.Obj? then Json.Str(StrOf(data, show))
              else match FirstPresent(Sources(data.fields, show))
                case Some(v) => v
                case None => Json.Str(StrOf(data, show))
  {
    var data := GetOr(resp, "response", Obj(map[]));
    if data.Obj? {
      ChoiceAnswerFirst(data.fields);
      SourcesInOrder(data.fields, show);
    }
  }

  /** A `null` choice text comes back as `None`, not as the text `"None"`. */
  lemma NullChoiceText(show: Json -> string)
    ensures ExtractText(map["response" := Obj(map["choices" := Arr([Obj(map["text" := Null])])])], show) == Null
  {
  }

  /** The choice answer is the message content if present, else the choice's text. */
  lemma ChoiceAnswerFirst(d: map<string, Json>)
    ensures ChoiceAnswer(d) == if ChoiceContent(d).Some? then ChoiceContent(d) else ChoiceText(d)
  {
  }

  /** The first present source, spelled out. */
  lemma SourcesInOrder(d: map<string, Json>, show: Json -> string)
    ensures FirstPresent(Sources(d, show)) ==
              if ChoiceContent(d).Some? then ChoiceContent(d)
              else if ChoiceText(d).Some? then ChoiceText(d)
              else if "response" in d then Some(Json.Str(StrOf(d["response"], show)))
              else if "output" in d then Some(Json.Str(StrOf(d["output"], show)))
              else if "text" in d then Some(Json.Str(StrOf(d["text"], show)))
              else Shown(Get(d, "raw"), show)
  {
    FirstOfSix(ChoiceContent(d), ChoiceText(d), Shown(Get(d, "response"), show), Shown(Get(d, "output"), show),
               Shown(Get(d, "text"), show), Shown(Get(d, "raw"), show));
  }

  lemma FirstOfSix(a: Option<Json>, b: Option<Json>, c: Option<Json>, d: Option<Json>, e: Option<Json>, f: Option<Json>)
    ensures FirstPresent([a, b, c, d, e, f]) ==
              if a.Some? then a else if b.Some? then b else if c.Some? then c
              else if d.Some? then d else if e.Some? then e else f
  {
    var vs := [a, b, c, d, e, f];
    FirstPresentStep(vs, 0);
    FirstPresentStep(vs, 1);
    FirstPresentStep(vs, 2);
    FirstPresentStep(vs, 3);
    FirstPresentStep(vs, 4);
    FirstPresentStep(vs, 5);
    assert vs[0..] == vs && vs[6..] == [];
  }

  /** One step of the search: the value at `k` if present, else the search from `k + 1`. */
  lemma FirstPresentStep(vs: seq<Option<Json>>, k: nat)
    requires k < |vs|
    ensures FirstPresent(vs[k..]) == if vs[k].Some? then vs[k] else FirstPresent(vs[k + 1..])
  {
    assert vs[k..][0] == vs[k] && vs[k..][1..] == vs[k + 1..];
  }

  // ------------------------------------------------------ multiple choice

  /** The letter of the first `\b([A-D])\b` match: a letter A to D standing alone as a word. */
  function FirstLetter(s: string, from: nat): (r: Option<char>)
    ensures r.Some? ==> exists i :: from <= i < |s| && s[i] == r.value && 'A' <= r.value <= 'D'
    decreases |s| - from
  {
    if from >= |s| then None
    else if 'A' <= s[from] <= 'D' && (from == 0 || !IsWordChar(s[from - 1])) &&
            (from + 1 == |s| || !IsWordChar(s[from + 1])) then Some(s[from])
    else FirstLetter(s, from + 1)
  }

  /**
   * The letter `(?:answer|choice)[\s:]*([A-D])` captures at its first match in `s`, the
   * search trying each start position in turn.
   */
  function AnswerLetter(s: string, from: nat): (r: Option<char>)
    ensures r.Some? ==> 'A' <= r.value <= 'D' && exists i :: from <= i < |s| && s[i] == r.value
    decreases |s| - from
  {
    if from >= |s| then None
    else
      var after :=
        if At(s, "answer", from) then Some(from + 6)
        else if At(s, "choice", from) then Some(from + 6)
        else None;
      if after.Some? then
        var j := SkipSpaceColon(s, after.value);
        if j < |s| && 'A' <= s[j] <= 'D' then Some(s[j]) else AnswerLetter(s, from + 1)
      else AnswerLetter(s, from + 1)
  }

  /** The end of the run of whitespace and colons starting at `i`. */
  function SkipSpaceColon(s: string, i: nat): (j: nat)
    requires i <= |s|
    ensures i <= j <= |s|
    decreases |s| - i
  {
    if i < |s| && (IsSpace(s[i]) || s[i] == ':') then SkipSpaceColon(s, i + 1) else i
  }

  /** `score_mmlu_answer`, as written: the substring test, then the letter and the answer patterns. */
  function ScoreMmlu(pred: string, correct: string): (r: bool)
    ensures r ==> pred != "" && !Contains(pred, "ERROR:")
  {
    if pred == "" || Contains(pred, "ERROR:") then false
    else
      var predUp, correctUp := Strip(Upper(pred)), Strip(Upper(correct));
      if Contains(predUp, correctUp) then true
      else
        var letter := FirstLetter(predUp, 0);
        if letter.Some? && [letter.value] == correctUp then true
        else
          var answer := AnswerLetter(predUp, 0);
          answer.Some? && [answer.value] == correctUp
  }

  /** The lower-case keywords of the answer pattern never occur in upper-cased text. */
  lemma {:induction false} NoAnswerInUpper(s: string, from: nat)
    requires NoLower(s)
    ensures AnswerLetter(s, from) == None
    decreases |s| - from
  {
    if from < |s| {
      assert !IsLowerChar(s[from]);
      assert !At(s, "answer", from) && !At(s, "choice", from) by {
        assert from + 6 <= |s| ==> s[from..from + 6][0] == s[from];
      }
      NoAnswerInUpper(s, from + 1);
    }
  }

  /** Trimming keeps a string free of lower case: what is left is a slice of it. */
  lemma StripKeepsNoLower(s: string)
    requires NoLower(s)
    ensures NoLower(Strip(s))
  {
    var k := StripSlice(s);
    var r := Strip(s);
    forall i | 0 <= i < |r| ensures !IsLowerChar(r[i]) {
      assert r[i] == s[k + i];
    }
  }

  /**
   * A prediction scores exactly when it is non-empty, carries no `ERROR:` and its
   * upper-cased, trimmed text contains the upper-cased, trimmed correct answer: the
   * letter pattern only finds letters the substring test has found already, and the
   * answer pattern never matches.
   */
  lemma ScoreMmluIsContainment(pred: string, correct: string)
    ensures ScoreMmlu(pred, correct) <==>
              pred != "" && !Contains(pred, "ERROR:") && Contains(Strip(Upper(pred)), Strip(Upper(correct)))
  {
    if pred != "" && !Contains(pred, "ERROR:") {
      var predUp, correctUp := Strip(Upper(pred)), Strip(Upper(correct));
      StripKeepsNoLower(Upper(pred));
      NoAnswerInUpper(predUp, 0);
      var letter := FirstLetter(predUp, 0);
      if letter.Some? {
        LetterInside(predUp, letter.value);
      }
    }
  }

  /** The letter pattern's letter occurs in the text. */
  lemma LetterInside(s: string, c: char)
    requires FirstLetter(s, 0) == Some(c)
    ensures Contains(s, [c])
  {
    var i :| 0 <= i < |s| && s[i] == c;
    assert s[i..i + 1] == [c];
    assert At(s, [c], i);
  }

  // ------------------------------------------------------------ code fences

  /**
   * The code `score_humaneval_solution` runs: `None` for an empty answer or one with
   * `ERROR:`; else the trimmed text after the first python fence up to the next fence,
   * or between the first two bare fences, or the answer itself.
   */
  function SolutionCode(code: string): (r: Option<string>)
    ensures r.None? <==> code == "" || Contains(code, "ERROR:")
  {
    if code == "" || Contains(code, "ERROR:") then None
    else if Contains(code, "```python") then
      var parts := SplitAll(code, "```python");
      if |parts| > 1 then Some(Strip(SplitAll(parts[1], "```")[0])) else Some(code)
    else if Contains(code, "```") then
      var parts := SplitAll(code, "```");
      if |parts| >= 3 then Some(Strip(parts[1])) else Some(code)
    else Some(code)
  }

  /** The text of `s` before the first `sep`, or all of it. */
  function Before(s: string, sep: string): (r: string)
    requires sep != []
    ensures !Contains(r, sep)
  {
    match SplitOnce(s, sep)
    case Some((before, _)) => before
    case None => s
  }

  /**
   * With a python fence, the code is the piece after the first python fence (up to the
   * next one), cut at its first fence and trimmed.
   */
  lemma PythonFence(code: string)
    requires code != "" && !Contains(code, "ERROR:") && Contains(code, "```python")
    ensures var (pre, after) := SplitOnce(code, "```python").value;
            code == pre + "```python" + after && !Contains(pre, "```python") &&
            SolutionCode(code) == Some(Strip(Before(Before(after, "```python"), "```")))
  {
    var after := SplitOnce(code, "```python").value.1;
    SplitAllFirst(code, "```python");
    SplitAllFirst(after, "```python");
    var piece := SplitAll(code, "```python")[1];
    assert piece == Before(after, "```python");
    SplitAllFirst(piece, "```");
  }

  /** With bare fences only, the code is the trimmed text between the first two fences, when there are two. */
  lemma BareFence(code: string)
    requires code != "" && !Contains(code, "ERROR:") && !Contains(code, "```python") && Contains(code, "```")
    ensures var after := SplitOnce(code, "```").value.1;
            SolutionCode(code) == if Contains(after, "```") then Some(Strip(Before(after, "```"))) else Some(code)
  {
    var after := SplitOnce(code, "```").value.1;
    SplitAllFirst(code, "```");
    SplitAllFirst(after, "```");
  }

  // --------------------------------------------------------------- summary

  /** A result row: its model and dataset, its status when recorded, and the two verdict flags. */
  datatype Row = Row(model: string, dataset: string, status: Option<int>, correct: bool, passed: bool)

  /** The integer counters `print_summary` keeps for one model. */
  datatype Stats = Stats(total: nat, errors: nat,
                         mmluCorrect: nat, mmluTotal: nat,
                         gsm8kCorrect: nat, gsm8kTotal: nat,
                         humanevalPassed: nat, humanevalTotal: nat)

  const Zero := Stats(0, 0, 0, 0, 0, 0, 0, 0)

  /**
   * The counters after one more row of the model: one more row in all, and counters
   * that agree with each other still agree.
   */
  function Count(st: Stats, row: Row): (r: Stats)
    ensures r.total == st.total + 1
    ensures Consistent(st) ==> Consistent(r)
  {
    var st := st.(total := st.total + 1);
    var st := if row.status.GetOr(200) != 200 then st.(errors := st.errors + 1) else st;
    if row.dataset == "MMLU" then
      st.(mmluTotal := st.mmluTotal + 1, mmluCorrect := st.mmluCorrect + if row.correct then 1 else 0)
    else if row.dataset == "GSM8K" then
      st.(gsm8kTotal := st.gsm8kTotal + 1, gsm8kCorrect := st.gsm8kCorrect + if row.correct then 1 else 0)
    else if row.dataset == "HumanEval" then
      st.(humanevalTotal := st.humanevalTotal + 1, humanevalPassed := st.humanevalPassed + if row.passed then 1 else 0)
    else st
  }

  /** The counters of model `m` over `rows`: consistent, and no more rows than there are. */
  function Tally(rows: seq<Row>, m: string): (r: Stats)
    ensures Consistent(r) && r.total <= |rows|
  {
    if rows == [] then Zero
    else
      var init := Tally(rows[..|rows| - 1], m);
      if rows[|rows| - 1].model == m then Count(init, rows[|rows| - 1]) else init
  }

  /** The counters agree with each other: no more successes than tries, no more of either than rows. */
  predicate Consistent(st: Stats) {
    st.mmluCorrect <= st.mmluTotal && st.gsm8kCorrect <= st.gsm8kTotal &&
    st.humanevalPassed <= st.humanevalTotal &&
    st.mmluTotal + st.gsm8kTotal + st.humanevalTotal <= st.total && st.errors <= st.total
  }

  /** The number of rows of model `m`. */
  function RowsOf(rows: seq<Row>, m: string): nat {
    if rows == [] then 0
    else RowsOf(rows[..|rows| - 1], m) + if rows[|rows| - 1].model == m then 1 else 0
  }

  /** The total is the model's number of rows. */
  lemma {:induction false} TallyTotal(rows: seq<Row>, m: string)
    ensures Tally(rows, m).total == RowsOf(rows, m)
  {
    if rows != [] {
      TallyTotal(rows[..|rows| - 1], m);
    }
  }

  /** The models that occur in `rows`. */
  function Models(rows: seq<Row>): (ms: set<string>)
    ensures forall k :: 0 <= k < |rows| ==> rows[k].model in ms
  {
    if rows == [] then {} else Models(rows[..|rows| - 1]) + {rows[|rows| - 1].model}
  }

  /**
   * The counting loop of `print_summary`: one entry per model that has rows, holding its
   * counters; nothing for no rows.
   */
  method Summarize(rows: seq<Row>) returns (summary: map<string, Stats>)
    ensures summary.Keys == Models(rows)
    ensures forall m :: m in summary ==> summary[m] == Tally(rows, m)
  {
    summary := map[];
    if rows == [] {
      return;
    }
    for i := 0 to |rows|
      invariant summary.Keys == Models(rows[..i])
      invariant forall m :: m in summary ==> summary[m] == Tally(rows[..i], m)
    {
      var row := rows[i];
      var st := if row.model in summary then summary[row.model] else Zero;
      summary := summary[row.model := Count(st, row)];
      assert rows[..i + 1][..i] == rows[..i];
      assert forall m :: m !in Models(rows[..i]) ==> Tally(rows[..i], m) == Zero by {
        forall m | m !in Models(rows[..i]) ensures Tally(rows[..i], m) == Zero {
          TallyAbsent(rows[..i], m);
        }
      }
    }
    assert rows[..|rows|] == rows;
  }

  /** A model without rows has zero counters. */
  lemma {:induction false} TallyAbsent(rows: seq<Row>, m: string)
    requires m !in Models(rows)
    ensures Tally(rows, m) == Zero
  {
    if rows != [] {
      TallyAbsent(rows[..|rows| - 1], m);
    }
  }
}
