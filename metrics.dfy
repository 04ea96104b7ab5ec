/** Code/metrics.py: the readability score (cognitive complexity aggregated over the
    top-level statements of the first function definition), the declared time
    complexity label, and the test-input extraction. */
module Metrics {
  import opened Py
  import opened Host

  /** One row of the per-statement breakdown: its contribution and its text. */
  datatype Row = Row(value: int, text: string)

  /** The pair get_cognitive_complexity returns: the total and the breakdown. */
  datatype Score = Score(total: int, details: seq<Row>)

  const SyntaxErrorPrefix: string := "Syntax error: "
  const NoFunctionMessage: string := "No function definition found"
  const TotalLabel: string := "Total"

  /** The position of the first top-level `def` (an `async def` is not one). */
  function FirstFunctionDef(body: seq<Stmt>): (r: Option<nat>)
    ensures r.Some? ==> r.value < |body| && body[r.value].FunctionDef?
    ensures r.Some? ==> forall k :: 0 <= k < r.value ==> !body[k].FunctionDef?
    ensures r.None? <==> forall k :: 0 <= k < |body| ==> !body[k].FunctionDef?
  {
    if body == [] then None
    else if body[0].FunctionDef? then Some(0)
    else match FirstFunctionDef(body[1..])
      case None => None
      case Some(k) => Some(k + 1)
  }

  /** The textual recursion heuristic: one extra point when the rendered statement
      contains the function's own name followed by an opening parenthesis. */
  function RecursionBonus(name: string, text: string): nat
  {
    if Contains(text, name + "(") then 1 else 0
  }

  /** The row for one statement of the body of the function called `name`. */
  function StatementRow(host: Host, name: string, node: Stmt): Row
  {
    var text := host.unparse(node);
    Row(host.nodeComplexity(node) + RecursionBonus(name, text), text)
  }

  /** The rows for every statement of a body, in order. */
  function StatementRows(host: Host, name: string, body: seq<Stmt>): (rows: seq<Row>)
    ensures |rows| == |body|
    ensures forall k :: 0 <= k < |body| ==> rows[k] == StatementRow(host, name, body[k])
  {
    if body == [] then [] else [StatementRow(host, name, body[0])] + StatementRows(host, name, body[1..])
  }

  /** The sum of the contributions of some rows. */
  function SumValues(rows: seq<Row>): int
  {
    if rows == [] then 0 else SumValues(rows[..|rows| - 1]) + rows[|rows| - 1].value
  }

  /** The breakdown of a function body followed by the final "Total" row. */
  function BodyScore(host: Host, name: string, body: seq<Stmt>): Score
  {
    var rows := StatementRows(host, name, body);
    Score(SumValues(rows), rows + [Row(SumValues(rows), TotalLabel)])
  }

  /** The score of a parsed module: the first `def` is scored; the decorator
      branch passes an AST node back into the scorer, where inspect.getsource
      raises TypeError. */
  function ScoreModule(host: Host, module_: seq<Stmt>): Result<Score>
  {
    match FirstFunctionDef(module_)
    case None => Ok(Score(-1, [Row(-1, NoFunctionMessage)]))
    case Some(k) =>
      if host.isDecorator(module_[k]) then Err(TypeError)
      else Ok(BodyScore(host, module_[k].name, module_[k].body))
  }

  /** get_cognitive_complexity of a source string. */
  function CognitiveComplexity(host: Host, source: string): Result<Score>
  {
    match host.parse(source)
    case SyntaxErrorRaised(message) => Ok(Score(-1, [Row(-1, SyntaxErrorPrefix + message)]))
    case OtherRaised(e) => Err(e)
    case Parsed(module_) => ScoreModule(host, module_)
  }

  /** get_cognitive_complexity (metrics.py:109-160): the loop accumulates the total
      and appends one row per statement, then the "Total" row. */
  method GetCognitiveComplexity(host: Host, source: string) returns (r: Result<Score>)
    ensures r == CognitiveComplexity(host, source)
  {
    var tree := host.parse(source);
    if tree.SyntaxErrorRaised? {
      return Ok(Score(-1, [Row(-1, SyntaxErrorPrefix + tree.message)]));
    } else if tree.OtherRaised? {
      return Err(tree.error);
    }
    var found := FirstFunctionDef(tree.body);
    if found.None? {
      return Ok(Score(-1, [Row(-1, NoFunctionMessage)]));
    }
    var funcdef := tree.body[found.value];
    if host.isDecorator(funcdef) {
      return Err(TypeError);
    }
    var score := ScoreBody(host, funcdef.name, funcdef.body);
    return Ok(score);
  }

  /** The loop over the body of the definition: it accumulates the total and
      appends one row per statement, then the "Total" row. */
  method ScoreBody(host: Host, name: string, body: seq<Stmt>) returns (score: Score)
    ensures score == BodyScore(host, name, body)
  {
    var details: seq<Row> := [];
    var complexity: int := 0;
    for i := 0 to |body|
      invariant details == StatementRows(host, name, body[..i])
      invariant complexity == SumValues(details)
    {
      var node := body[i];
      var nodeComplexity: int := host.nodeComplexity(node);
      complexity := complexity + nodeComplexity;
      var nodeCode := host.unparse(node);
      if Contains(nodeCode, name + "(") {
        nodeComplexity := nodeComplexity + 1;
        complexity := complexity + 1;
      }
      var row := Row(nodeComplexity, nodeCode);
      assert row == StatementRow(host, name, node);
      RowsStep(host, name, body, i, details, row);
      details := details + [row];
    }
    assert body[..|body|] == body;
    score := Score(complexity, details + [Row(complexity, TotalLabel)]);
  }

  /** Appending the row of statement i extends the rows and the sum of the first i. */
  lemma RowsStep(host: Host, name: string, body: seq<Stmt>, i: nat, details: seq<Row>, row: Row)
    requires i < |body| && details == StatementRows(host, name, body[..i]) && row == StatementRow(host, name, body[i])
    ensures details + [row] == StatementRows(host, name, body[..i + 1])
    ensures SumValues(details + [row]) == SumValues(details) + row.value
  {
    assert body[..i + 1] == body[..i] + [body[i]];
    StatementRowsSnoc(host, name, body[..i], body[i]);
    SumValuesSnoc(details, row);
  }

  lemma {:induction false} StatementRowsSnoc(host: Host, name: string, body: seq<Stmt>, node: Stmt)
    ensures StatementRows(host, name, body + [node]) == StatementRows(host, name, body) + [StatementRow(host, name, node)]
  {
  }

  lemma SumValuesSnoc(rows: seq<Row>, row: Row)
    ensures SumValues(rows + [row]) == SumValues(rows) + row.value
  {
    assert (rows + [row])[..|rows|] == rows;
  }

  /** Contributions are never negative, so neither is a sum of them. */
  lemma {:induction false} SumOfStatementRowsNonNegative(host: Host, name: string, body: seq<Stmt>)
    ensures SumValues(StatementRows(host, name, body)) >= 0
    decreases |body|
  {
    var rows := StatementRows(host, name, body);
    if body != [] {
      var init := body[..|body| - 1];
      assert body == init + [body[|body| - 1]];
      StatementRowsSnoc(host, name, init, body[|body| - 1]);
      assert rows[..|rows| - 1] == StatementRows(host, name, init);
      SumOfStatementRowsNonNegative(host, name, init);
    }
  }

  /** The shape of a genuine score: one row per top-level statement of the first
      `def`, in order, each its node complexity plus the recursion bonus, then a
      final "Total" row whose value is the total and the sum of all rows before it. */
  lemma ScoreShape(host: Host, source: string, module_: seq<Stmt>, k: nat)
    requires host.parse(source) == Parsed(module_)
    requires FirstFunctionDef(module_) == Some(k) && !host.isDecorator(module_[k])
    ensures CognitiveComplexity(host, source).Ok?
    ensures var s := CognitiveComplexity(host, source).value;
            var body := module_[k].body;
            && |s.details| == |body| + 1
            && s.details[|body|] == Row(s.total, TotalLabel)
            && s.total == SumValues(s.details[..|body|])
            && s.total >= 0
            && forall j :: 0 <= j < |body| ==>
                 && s.details[j].text == host.unparse(body[j])
                 && s.details[j].value == host.nodeComplexity(body[j]) + RecursionBonus(module_[k].name, s.details[j].text)
  {
    var body := module_[k].body;
    var rows := StatementRows(host, module_[k].name, body);
    assert (rows + [Row(SumValues(rows), TotalLabel)])[..|body|] == rows;
    SumOfStatementRowsNonNegative(host, module_[k].name, body);
  }

  /** The -1 sentinel is never a genuine score: the total is -1 exactly when the
      source does not parse or holds no top-level `def`, and then the breakdown is
      the single diagnostic row. */
  lemma SentinelExactlyOnFailure(host: Host, source: string)
    requires CognitiveComplexity(host, source).Ok?
    ensures var s := CognitiveComplexity(host, source).value;
            (s.total == -1) <==> (host.parse(source).SyntaxErrorRaised? || FirstFunctionDef(host.parse(source).body).None?)
    ensures host.parse(source).SyntaxErrorRaised? ==>
              CognitiveComplexity(host, source).value.details == [Row(-1, SyntaxErrorPrefix + host.parse(source).message)]
    ensures host.parse(source).Parsed? && FirstFunctionDef(host.parse(source).body).None? ==>
              CognitiveComplexity(host, source).value.details == [Row(-1, NoFunctionMessage)]
  {
    var tree := host.parse(source);
    if tree.Parsed? && FirstFunctionDef(tree.body).Some? {
      var k := FirstFunctionDef(tree.body).value;
      SumOfStatementRowsNonNegative(host, tree.body[k].name, tree.body[k].body);
    }
  }

  /** The recursion bonus is at most one point per statement, however many
      self-calls the statement's text holds. */
  lemma BonusAtMostOne(host: Host, name: string, node: Stmt)
    ensures var row := StatementRow(host, name, node);
            row.value - host.nodeComplexity(node) == (if Contains(row.text, name + "(") then 1 else 0)
  {
  }

  lemma {:induction false} FirstFunctionDefAppend(body: seq<Stmt>, rest: seq<Stmt>)
    requires FirstFunctionDef(body).Some?
    ensures FirstFunctionDef(body + rest) == FirstFunctionDef(body)
    decreases |body|
  {
    if !body[0].FunctionDef? {
      assert (body + rest)[1..] == body[1..] + rest;
      FirstFunctionDefAppend(body[1..], rest);
    }
  }

  /** Only the first top-level `def` is scored: whatever follows it in the module
      does not change the score. */
  lemma OnlyFirstDefinitionScored(host: Host, module_: seq<Stmt>, rest: seq<Stmt>)
    requires FirstFunctionDef(module_).Some?
    ensures ScoreModule(host, module_ + rest) == ScoreModule(host, module_)
  {
    FirstFunctionDefAppend(module_, rest);
    var k := FirstFunctionDef(module_).value;
    assert (module_ + rest)[k] == module_[k];
  }

  // ------------------------------------------------------------ declared labels

  /** extract_time_complexity (metrics.py:38-50): json.loads, the "time_complexity"
      field, then .lower(), which only a str has. */
  function ExtractTimeComplexity(host: Host, responseJson: string): (r: Result<string>)
    ensures r.Ok? <==> host.loads(responseJson).Some? && GetItem(host.loads(responseJson).value, "time_complexity").Ok?
                        && GetItem(host.loads(responseJson).value, "time_complexity").value.JStr?
    ensures r.Ok? ==> r.value == Lower(host.loads(responseJson).value.fields["time_complexity"].s)
    ensures r.Ok? ==> Lower(r.value) == r.value
    ensures host.loads(responseJson).None? ==> r == Err(JsonDecodeError)
  {
    match host.loads(responseJson)
    case None => Err(JsonDecodeError)
    case Some(j) =>
      match GetItem(j, "time_complexity")
      case Err(e) => Err(e)
      case Ok(entry) =>
        if entry.JStr? then
          LowerIdempotent(entry.s);
          Ok(Lower(entry.s))
        else Err(AttributeError)
  }

  // ------------------------------------------------------------ test inputs

  /** What `for test_case in j` yields: a list's items, a string's characters; a
      dict yields its str keys, and the only dict whose keys survive indexing by
      "args" is the empty one; other values are not iterable. */
  function TestCases(j: Json): Result<seq<Json>>
  {
    match j
    case JArr(items) => Ok(items)
    case JStr(s) => Ok(seq(|s|, i requires 0 <= i < |s| => JStr([s[i]])))
    case JObj(fields) => if fields == map[] then Ok([]) else Err(TypeError)
    case _ => Err(TypeError)
  }

  /** The "args" entry of every test case, in order; the first failing lookup raises. */
  function ArgsOf(cases: seq<Json>): (r: Result<seq<Json>>)
    ensures r.Ok? <==> forall k :: 0 <= k < |cases| ==> GetItem(cases[k], "args").Ok?
    ensures r.Ok? ==> |r.value| == |cases| && forall k :: 0 <= k < |cases| ==> r.value[k] == cases[k].fields["args"]
    ensures r.Err? ==> exists k :: 0 <= k < |cases| && GetItem(cases[k], "args") == Err(r.error)
                                   && forall m :: 0 <= m < k ==> GetItem(cases[m], "args").Ok?
  {
    if cases == [] then Ok([])
    else
      match ArgsOf(cases[..|cases| - 1])
      case Err(e) => Err(e)
      case Ok(front) =>
        match GetItem(cases[|cases| - 1], "args")
        case Err(e) => Err(e)
        case Ok(args) => Ok(front + [args])
  }

  /** The value extract_input_values computes from a decoded response. */
  function InputValues(responseJson: Json): Result<seq<Json>>
  {
    match GetItem(responseJson, "test_inputs")
    case Err(e) => Err(e)
    case Ok(inputs) =>
      match TestCases(inputs)
      case Err(e) => Err(e)
      case Ok(cases) => ArgsOf(cases)
  }

  /** extract_input_values (metrics.py:14-32): one "args" entry per test case, in order. */
  method ExtractInputValues(responseJson: Json) returns (r: Result<seq<Json>>)
    ensures r == InputValues(responseJson)
    ensures r.Ok? ==> exists cases :: TestCases(responseJson.fields["test_inputs"]) == Ok(cases) && |r.value| == |cases|
  {
    var inputs := GetItem(responseJson, "test_inputs");
    if inputs.Err? {
      return Err(inputs.error);
    }
    var cases := TestCases(inputs.value);
    if cases.Err? {
      return Err(cases.error);
    }
    var nValues: seq<Json> := [];
    for i := 0 to |cases.value|
      invariant ArgsOf(cases.value[..i]) == Ok(nValues)
    {
      var testCase := cases.value[i];
      var args := GetItem(testCase, "args");
      assert cases.value[..i + 1][..i] == cases.value[..i];
      if args.Err? {
        ArgsFailFrom(cases.value, i + 1);
        assert cases.value[..|cases.value|] == cases.value;
        return Err(args.error);
      }
      nValues := nValues + [args.value];
    }
    assert cases.value[..|cases.value|] == cases.value;
    return Ok(nValues);
  }

  /** Once the lookup fails at some case, the extraction raises that lookup's error. */
  lemma {:induction false} ArgsFailFrom(cases: seq<Json>, n: nat)
    requires 0 < n <= |cases|
    requires ArgsOf(cases[..n - 1]).Ok? && GetItem(cases[n - 1], "args").Err?
    ensures ArgsOf(cases) == Err(GetItem(cases[n - 1], "args").error)
    decreases |cases| - n
  {
    assert cases[..n][..n - 1] == cases[..n - 1];
    if n < |cases| {
      assert cases[..n + 1][..n] == cases[..n];
      ArgsFailPrefix(cases, n);
    } else {
      assert cases[..n] == cases;
    }
  }

  lemma {:induction false} ArgsFailPrefix(cases: seq<Json>, n: nat)
    requires 0 < n <= |cases|
    requires ArgsOf(cases[..n]).Err?
    ensures ArgsOf(cases) == ArgsOf(cases[..n])
    decreases |cases| - n
  {
    if n < |cases| {
      assert cases[..n + 1] == cases[..n] + [cases[n]];
      ArgsErrExtends(cases[..n], cases[n]);
      ArgsFailPrefix(cases, n + 1);
    } else {
      assert cases[..n] == cases;
    }
  }

  /** A failed extraction stays failed with the same error when a case is added. */
  lemma ArgsErrExtends(front: seq<Json>, c: Json)
    requires ArgsOf(front).Err?
    ensures ArgsOf(front + [c]) == ArgsOf(front)
  {
    assert (front + [c])[..|front|] == front;
  }
}
