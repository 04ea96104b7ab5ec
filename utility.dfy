/** Code/utility_function.py: the list, set and field helpers the debate strategies
    rely on, and the arithmetic that turns a unittest summary into a report. */
module Utility {
  import opened Py
  import opened Host
  import opened Metrics

  // ------------------------------------------------------------ distinct values

  /** set(xs): the distinct values of a list. */
  function Distinct<T>(xs: seq<T>): set<T>
  {
    set x | x in xs
  }

  lemma TwoDistinct<T>(xs: seq<T>, i: nat)
    requires i < |xs| && xs[i] != xs[0]
    ensures |Distinct(xs)| >= 2
  {
    var rest := Distinct(xs) - {xs[0]};
    assert xs[i] in rest;
    assert Distinct(xs) == rest + {xs[0]};
  }

  /** len(set(xs)) == 1 exactly when the list is non-empty and all its entries are equal. */
  lemma SingleDistinct<T>(xs: seq<T>)
    ensures |Distinct(xs)| == 1 <==> xs != [] && forall i :: 0 <= i < |xs| ==> xs[i] == xs[0]
  {
    if xs == [] {
      assert Distinct(xs) == {};
    } else if forall i :: 0 <= i < |xs| ==> xs[i] == xs[0] {
      assert Distinct(xs) == {xs[0]};
    } else {
      var i :| 0 <= i < |xs| && xs[i] != xs[0];
      TwoDistinct(xs, i);
    }
  }

  /** A set holds exactly one value when it is non-empty and any two of its members are equal. */
  lemma SingletonSet<T>(s: set<T>)
    ensures |s| == 1 <==> s != {} && forall x, y :: x in s && y in s ==> x == y
  {
    if s != {} {
      var x :| x in s;
      if forall y :: y in s ==> y == x {
        assert s == {x};
      } else {
        var y :| y in s && y != x;
        var rest := s - {x};
        assert y in rest;
        assert s == rest + {x};
      }
    }
  }

  // ------------------------------------------------------------ remove_duplicates

  /** The entries of a list in order, each kept at its first occurrence only. */
  function Dedup<T(==)>(xs: seq<T>): seq<T>
  {
    if xs == [] then []
    else
      var front := Dedup(xs[..|xs| - 1]);
      if xs[|xs| - 1] in front then front else front + [xs[|xs| - 1]]
  }

  predicate NoRepeats<T(==)>(xs: seq<T>)
  {
    forall i, j :: 0 <= i < j < |xs| ==> xs[i] != xs[j]
  }

  /** The position of the first occurrence of x. */
  function FirstIndex<T(==)>(xs: seq<T>, x: T): (r: nat)
    requires x in xs
    ensures r < |xs| && xs[r] == x && x !in xs[..r]
  {
    if xs[0] == x then 0
    else
      var r := 1 + FirstIndex(xs[1..], x);
      assert xs[..r] == [xs[0]] + xs[1..][..r - 1];
      r
  }

  lemma FirstIndexUnique<T>(xs: seq<T>, x: T, k: nat)
    requires k < |xs| && xs[k] == x && x !in xs[..k]
    ensures FirstIndex(xs, x) == k
  {
  }

  lemma FirstIndexPrefix<T>(p: seq<T>, q: seq<T>, x: T)
    requires x in p
    ensures FirstIndex(p + q, x) == FirstIndex(p, x)
  {
    var k := FirstIndex(p, x);
    assert (p + q)[..k] == p[..k];
    FirstIndexUnique(p + q, x, k);
  }

  /** remove_duplicates keeps every value of its input and repeats none. */
  lemma {:induction false} DedupElements<T>(xs: seq<T>)
    ensures NoRepeats(Dedup(xs))
    ensures Distinct(Dedup(xs)) == Distinct(xs)
    decreases |xs|
  {
    if xs != [] {
      var init := xs[..|xs| - 1];
      DedupElements(init);
      assert xs == init + [xs[|xs| - 1]];
      assert Distinct(xs) == Distinct(init) + {xs[|xs| - 1]};
    }
  }

  /** remove_duplicates keeps first-occurrence order: each kept value first occurs
      in the input before every value kept after it. */
  lemma {:induction false} DedupOrder<T>(xs: seq<T>)
    ensures forall x :: x in Dedup(xs) ==> x in xs
    ensures forall i, j :: 0 <= i < j < |Dedup(xs)| ==> FirstIndex(xs, Dedup(xs)[i]) < FirstIndex(xs, Dedup(xs)[j])
    decreases |xs|
  {
    if xs != [] {
      var init := xs[..|xs| - 1];
      var last := xs[|xs| - 1];
      var front := Dedup(init);
      DedupOrder(init);
      DedupElements(init);
      assert xs == init + [last];
      forall x | x in front ensures FirstIndex(xs, x) == FirstIndex(init, x) {
        FirstIndexPrefix(init, [last], x);
      }
      if last !in front {
        assert last !in Distinct(init);
        assert xs[..|init|] == init;
        FirstIndexUnique(xs, last, |init|);
      }
    }
  }

  /** A list without repeats is its own deduplication. */
  lemma {:induction false} DedupOfNoRepeats<T>(xs: seq<T>)
    requires NoRepeats(xs)
    ensures Dedup(xs) == xs
    decreases |xs|
  {
    if xs != [] {
      var init := xs[..|xs| - 1];
      assert NoRepeats(init);
      DedupOfNoRepeats(init);
      assert xs[|xs| - 1] !in init;
      assert init + [xs[|xs| - 1]] == xs;
    }
  }

  /** remove_duplicates is idempotent. */
  lemma DedupIdempotent<T>(xs: seq<T>)
    ensures Dedup(Dedup(xs)) == Dedup(xs)
  {
    DedupElements(xs);
    DedupOfNoRepeats(Dedup(xs));
  }

  /** A list without repeats has as many distinct values as entries. */
  lemma {:induction false} NoRepeatsCard<T>(xs: seq<T>)
    requires NoRepeats(xs)
    ensures |Distinct(xs)| == |xs|
    decreases |xs|
  {
    if xs != [] {
      var init := xs[..|xs| - 1];
      var last := xs[|xs| - 1];
      assert NoRepeats(init);
      NoRepeatsCard(init);
      assert xs == init + [last];
      assert Distinct(xs) == Distinct(init) + {last};
      assert last !in Distinct(init);
    }
  }

  lemma {:induction false} DistinctAtMost<T>(xs: seq<T>)
    ensures |Distinct(xs)| <= |xs|
    decreases |xs|
  {
    if xs != [] {
      var init := xs[..|xs| - 1];
      DistinctAtMost(init);
      assert xs == init + [xs[|xs| - 1]];
      assert Distinct(xs) == Distinct(init) + {xs[|xs| - 1]};
    }
  }

  /** remove_duplicates returns one entry per distinct value. */
  lemma DedupCard<T>(xs: seq<T>)
    ensures |Dedup(xs)| == |Distinct(xs)|
  {
    DedupElements(xs);
    NoRepeatsCard(Dedup(xs));
  }

  /** Once two different values have been seen, more entries cannot make them one. */
  lemma SplitStaysSplit<T>(xs: seq<T>, more: seq<T>)
    requires |Distinct(xs)| >= 2
    ensures |Distinct(xs + more)| >= 2
  {
    SingleDistinct(xs);
    var i :| 0 <= i < |xs| && xs[i] != xs[0];
    assert (xs + more)[i] == xs[i] && (xs + more)[0] == xs[0];
    TwoDistinct(xs + more, i);
  }

  /** Three entries are three distinct values exactly when no two are equal. */
  lemma ThreeDistinct<T>(xs: seq<T>)
    requires |xs| == 3
    ensures |Distinct(xs)| == 3 <==> NoRepeats(xs)
  {
    if NoRepeats(xs) {
      NoRepeatsCard(xs);
    } else {
      assert Distinct(xs) == {xs[0], xs[1], xs[2]};
      var i, j :| 0 <= i < j < 3 && xs[i] == xs[j];
      if xs[0] == xs[1] {
        assert Distinct(xs) == {xs[0], xs[2]};
      } else if xs[0] == xs[2] {
        assert Distinct(xs) == {xs[0], xs[1]};
      } else {
        assert Distinct(xs) == {xs[0], xs[1]};
      }
    }
  }

  /** remove_duplicates (utility_function.py:63-69): keep an element when it has not
      been explored yet. */
  method RemoveDuplicates<T(==)>(list: seq<T>) returns (result: seq<T>)
    ensures result == Dedup(list)
  {
    result := [];
    var explored: set<T> := {};
    for i := 0 to |list|
      invariant result == Dedup(list[..i])
      invariant explored == Distinct(result)
    {
      var element := list[i];
      assert list[..i + 1][..i] == list[..i];
      if element !in explored {
        result := result + [element];
        explored := explored + {element};
      }
    }
    assert list[..|list|] == list;
  }

  // ------------------------------------------------------------ get_set_number_solutions

  /** list(range(n)). */
  function Range(n: int): (r: seq<int>)
    ensures |r| == (if n < 0 then 0 else n)
    ensures forall j :: 0 <= j < |r| ==> r[j] == j
  {
    if n <= 0 then [] else Range(n - 1) + [n - 1]
  }

  /** get_set_number_solutions (utility_function.py:39-49): the agent numbers 0..n-1
      without int(placeholder). The placeholder is converted on the first pass of
      the removal loop, so an unconvertible one raises only when n > 0. */
  method GetSetNumberSolutions(placeholder: Value, agentsNo: int) returns (r: Result<seq<int>>)
    ensures agentsNo <= 0 ==> r == Ok([])
    ensures agentsNo > 0 ==> (r.Err? <==> ToInt(placeholder).Err?)
    ensures agentsNo > 0 && r.Err? ==> r.error == ToInt(placeholder).error
    ensures r.Ok? && agentsNo > 0 ==>
              var p := ToInt(placeholder).value;
              && (0 <= p < agentsNo ==>
                    |r.value| == agentsNo - 1 && forall j :: 0 <= j < |r.value| ==> r.value[j] == (if j < p then j else j + 1))
              && (!(0 <= p < agentsNo) ==> r.value == Range(agentsNo))
  {
    var n := if agentsNo < 0 then 0 else agentsNo;
    var listLocal: seq<int> := seq(n, _ => 0);
    for i := 0 to n
      invariant |listLocal| == n
      invariant forall j :: 0 <= j < i ==> listLocal[j] == j
    {
      listLocal := listLocal[i := i];
    }
    assert listLocal == Range(agentsNo);
    var k := 0;
    while k < |listLocal|
      invariant 0 <= k <= |listLocal| == n
      invariant listLocal == Range(agentsNo)
      invariant k > 0 ==> ToInt(placeholder).Ok? && !(0 <= ToInt(placeholder).value < k)
    {
      var p := ToInt(placeholder);
      if p.Err? {
        return Err(p.error);
      }
      if listLocal[k] == p.value {
        listLocal := listLocal[..k] + listLocal[k + 1..];
        return Ok(listLocal);
      }
      k := k + 1;
    }
    return Ok(listLocal);
  }

  // ------------------------------------------------------------ equality tests

  /** The time-complexity labels of some solutions, in order; the first solution
      whose label cannot be extracted raises. */
  function TimeLabels(host: Host, solutions: seq<string>): (r: Result<seq<string>>)
    ensures r.Ok? <==> forall i :: 0 <= i < |solutions| ==> ExtractTimeComplexity(host, solutions[i]).Ok?
    ensures r.Ok? ==> |r.value| == |solutions|
    ensures r.Ok? ==> forall i :: 0 <= i < |solutions| ==> r.value[i] == ExtractTimeComplexity(host, solutions[i]).value
    ensures r.Err? ==> exists i :: && 0 <= i < |solutions| && ExtractTimeComplexity(host, solutions[i]) == Err(r.error)
                                   && forall j :: 0 <= j < i ==> ExtractTimeComplexity(host, solutions[j]).Ok?
  {
    if solutions == [] then Ok([])
    else
      match ExtractTimeComplexity(host, solutions[0])
      case Err(e) => Err(e)
      case Ok(first) =>
        match TimeLabels(host, solutions[1..])
        case Err(e) => Err(e)
        case Ok(rest) => Ok([first] + rest)
  }

  /** equals_time_complexity (utility_function.py:83-92): true exactly when the
      lowercased labels of all solutions are one and the same value; false on no
      solutions. */
  function EqualsTimeComplexity(host: Host, solutions: seq<string>): (r: Result<bool>)
    ensures r.Ok? <==> forall i :: 0 <= i < |solutions| ==> ExtractTimeComplexity(host, solutions[i]).Ok?
    ensures r.Ok? ==> (r.value <==> (solutions != [] &&
              forall i :: 0 <= i < |solutions| ==>
                ExtractTimeComplexity(host, solutions[i]).value == ExtractTimeComplexity(host, solutions[0]).value))
  {
    match TimeLabels(host, solutions)
    case Err(e) => Err(e)
    case Ok(labels) =>
      SingleDistinct(labels);
      Ok(|Distinct(labels)| == 1)
  }

  /** The argument equals_cognitive_complexity is given: it expects a dict and calls
      .values() on it, which a list does not have. */
  datatype Scores = ScoreDict(entries: map<int, int>) | ScoreList(items: seq<int>)

  /** equals_cognitive_complexity (utility_function.py:106-110): true exactly when
      the dict's values are one and the same value; false on an empty dict; a list
      raises AttributeError. */
  function EqualsCognitiveComplexity(scores: Scores): (r: Result<bool>)
    ensures scores.ScoreList? ==> r == Err(AttributeError)
    ensures scores.ScoreDict? ==> r.Ok? && (r.value <==> (scores.entries != map[] &&
              forall a, b :: a in scores.entries && b in scores.entries ==> scores.entries[a] == scores.entries[b]))
  {
    match scores
    case ScoreList(_) => Err(AttributeError)
    case ScoreDict(entries) =>
      SingleValue(entries);
      Ok(|entries.Values| == 1)
  }

  lemma SingleValue(entries: map<int, int>)
    ensures |entries.Values| == 1 <==> (entries != map[] &&
              forall a, b :: a in entries && b in entries ==> entries[a] == entries[b])
  {
    SingletonSet(entries.Values);
    if !exists k :: k in entries {
      assert entries == map[];
      assert entries.Values == {};
    } else {
      var k :| k in entries;
      assert entries[k] in entries.Values;
      if forall a, b :: a in entries && b in entries ==> entries[a] == entries[b] {
        forall x, y | x in entries.Values && y in entries.Values ensures x == y {
          var a :| a in entries && entries[a] == x;
          var b :| b in entries && entries[b] == y;
        }
      } else {
        var a, b :| a in entries && b in entries && entries[a] != entries[b];
        assert entries[a] in entries.Values && entries[b] in entries.Values;
      }
    }
  }

  // ------------------------------------------------------------ get_random_element

  /** get_random_element (utility_function.py:126-128): None for an empty list,
      otherwise the member random.choice draws, here the one at `pick` modulo the length. */
  function GetRandomElement<T>(xs: seq<T>, pick: nat): (r: Option<T>)
    ensures r.None? <==> xs == []
    ensures r.Some? ==> r.value in xs
    ensures pick < |xs| ==> r == Some(xs[pick])
  {
    if xs == [] then None else Some(xs[pick % |xs|])
  }

  // ------------------------------------------------------------ get_k_responses

  /** response[int(i)] for every i in feedback, in order and with repeats; the first
      vote that does not convert or is out of range raises. */
  function KResponses(response: seq<string>, feedback: seq<string>): (r: Result<seq<string>>)
    ensures r.Ok? <==> forall j :: 0 <= j < |feedback| ==> IndexByText(response, feedback[j]).Ok?
    ensures r.Ok? ==> |r.value| == |feedback|
    ensures r.Ok? ==> forall j :: 0 <= j < |feedback| ==> IndexByText(response, feedback[j]) == Ok(r.value[j])
  {
    if feedback == [] then Ok([])
    else
      match IndexByText(response, feedback[0])
      case Err(e) => Err(e)
      case Ok(x) =>
        match KResponses(response, feedback[1..])
        case Err(e) => Err(e)
        case Ok(rest) => Ok([x] + rest)
  }

  /** The error get_k_responses raises is that of the first vote that fails. */
  lemma {:induction false} KResponsesFirstFailure(response: seq<string>, feedback: seq<string>, i: nat)
    requires i < |feedback| && IndexByText(response, feedback[i]).Err?
    requires forall m :: 0 <= m < i ==> IndexByText(response, feedback[m]).Ok?
    ensures KResponses(response, feedback) == Err(IndexByText(response, feedback[i]).error)
  {
    if i > 0 {
      KResponsesFirstFailure(response, feedback[1..], i - 1);
    }
  }

  lemma {:induction false} KResponsesAllFound(response: seq<string>, feedback: seq<string>, found: seq<string>)
    requires |found| == |feedback|
    requires forall j :: 0 <= j < |feedback| ==> IndexByText(response, feedback[j]) == Ok(found[j])
    ensures KResponses(response, feedback) == Ok(found)
  {
    if feedback != [] {
      forall j | 0 <= j < |feedback| - 1
        ensures IndexByText(response, feedback[1..][j]) == Ok(found[1..][j])
      {
        assert feedback[1..][j] == feedback[j + 1] && found[1..][j] == found[j + 1];
      }
      KResponsesAllFound(response, feedback[1..], found[1..]);
      assert found == [found[0]] + found[1..];
    }
  }

  /** get_k_responses (utility_function.py:143-149). */
  method GetKResponses(response: seq<string>, feedback: seq<string>) returns (r: Result<seq<string>>)
    ensures r == KResponses(response, feedback)
  {
    var kResponses: seq<string> := [];
    for i := 0 to |feedback|
      invariant |kResponses| == i
      invariant forall j :: 0 <= j < i ==> IndexByText(response, feedback[j]) == Ok(kResponses[j])
    {
      var chosen := IndexByText(response, feedback[i]);
      if chosen.Err? {
        KResponsesFirstFailure(response, feedback, i);
        return Err(chosen.error);
      }
      kResponses := kResponses + [chosen.value];
    }
    KResponsesAllFound(response, feedback, kResponses);
    return Ok(kResponses);
  }

  // ------------------------------------------------------------ get_formatted_code_solution

  /** get_formatted_code_solution (utility_function.py:162-171). The key tests use
      Python's `in`, which on a decoded list or string is membership or a substring
      test: one that lacks either key gives None, one that has both reaches the
      indexing, which raises TypeError. On any other non-dict value `in` raises
      TypeError. */
  function GetFormattedCodeSolution(host: Host, aiResponse: string): (r: Result<Value>)
    ensures host.loads(aiResponse).None? ==> r == Err(JsonDecodeError)
    ensures host.loads(aiResponse).Some? && host.loads(aiResponse).value.JObj? ==>
              var fields := host.loads(aiResponse).value.fields;
              && ("imports" !in fields || "code" !in fields ==> r == Ok(NoneValue))
              && ("imports" in fields && "code" in fields && fields["imports"] != JStr("") ==>
                    r == Ok(Str(Render(host, fields["imports"]) + "\n\n" + Render(host, fields["code"]))))
              && ("imports" in fields && "code" in fields && fields["imports"] == JStr("") ==>
                    r == Ok(Str(Render(host, fields["code"]))))
    ensures host.loads(aiResponse).Some? && host.loads(aiResponse).value.JArr? ==>
              var items := host.loads(aiResponse).value.items;
              r == (if JStr("imports") in items && JStr("code") in items then Err(TypeError) else Ok(NoneValue))
    ensures host.loads(aiResponse).Some? && host.loads(aiResponse).value.JStr? ==>
              var text := host.loads(aiResponse).value.s;
              r == (if Contains(text, "imports") && Contains(text, "code") then Err(TypeError) else Ok(NoneValue))
    ensures host.loads(aiResponse).Some? ==>
              var j := host.loads(aiResponse).value;
              !(j.JObj? || j.JArr? || j.JStr?) ==> r == Err(TypeError)
    ensures r.Ok? && r.value != NoneValue ==> host.loads(aiResponse).value.JObj?
  {
    match host.loads(aiResponse)
    case None => Err(JsonDecodeError)
    case Some(responseJson) =>
      match In("imports", responseJson)
      case Err(e) => Err(e)
      case Ok(hasImports) =>
        if !hasImports then Ok(NoneValue)
        else match In("code", responseJson)
          case Err(e) => Err(e)
          case Ok(hasCode) =>
            if !hasCode then Ok(NoneValue)
            else match GetItem(responseJson, "imports")
              case Err(e) => Err(e)
              case Ok(imports) =>
                match GetItem(responseJson, "code")
                case Err(e) => Err(e)
                case Ok(code) =>
                  if imports != JStr("") then Ok(Str(Render(host, imports) + "\n\n" + Render(host, code)))
                  else Ok(Str(Render(host, code)))
  }

  // ------------------------------------------------------------ get_feedback_value

  /** The argument of get_feedback_value: a str, a dict, or anything else. */
  datatype FeedbackInput = TextInput(text: string) | DictInput(fields: map<string, Json>) | OtherInput

  /** get_feedback_value (utility_function.py:184-201). Only a JSON decoding error is
      caught; text that decodes to something other than a dict reaches the `in`
      test or the indexing, which raise TypeError. */
  function GetFeedbackValue(host: Host, input: FeedbackInput): (r: Result<Value>)
    ensures r.Ok? && r.value != NoneValue ==>
              exists fields :: (input == DictInput(fields) || (input.TextInput? && host.loads(input.text) == Some(JObj(fields))))
                               && "response" in fields && IsPyInt(fields["response"]) && r.value == IntValue(fields["response"])
    ensures input.OtherInput? ==> r == Ok(NoneValue)
    ensures input.TextInput? && host.loads(input.text).None? ==> r == Ok(NoneValue)
    ensures input.DictInput? ==> r == Ok(if "response" in input.fields && IsPyInt(input.fields["response"])
                                         then IntValue(input.fields["response"]) else NoneValue)
    ensures input.TextInput? && host.loads(input.text).Some? && host.loads(input.text).value.JObj? ==>
              var fields := host.loads(input.text).value.fields;
              r == Ok(if "response" in fields && IsPyInt(fields["response"]) then IntValue(fields["response"]) else NoneValue)
    ensures input.TextInput? && host.loads(input.text).Some? && host.loads(input.text).value.JArr? ==>
              r == (if JStr("response") in host.loads(input.text).value.items then Err(TypeError) else Ok(NoneValue))
    ensures input.TextInput? && host.loads(input.text).Some? && host.loads(input.text).value.JStr? ==>
              r == (if Contains(host.loads(input.text).value.s, "response") then Err(TypeError) else Ok(NoneValue))
    ensures r.Err? ==> input.TextInput? && host.loads(input.text).Some? && !host.loads(input.text).value.JObj?
  {
    var data: Option<Json> :=
      match input
      case TextInput(text) => host.loads(text)
      case DictInput(fields) => Some(JObj(fields))
      case OtherInput => None;
    match data
    case None => Ok(NoneValue)
    case Some(d) =>
      match In("response", d)
      case Err(e) => Err(e)
      case Ok(present) =>
        if !present then Ok(NoneValue)
        else match GetItem(d, "response")
          case Err(e) => Err(e)
          case Ok(v) => if IsPyInt(v) then Ok(IntValue(v)) else Ok(NoneValue)
  }

  // ------------------------------------------------------------ unittest summary

  /** The groups of the "FAILED (failures=N, errors=M)" match; the errors group is optional. */
  datatype FailedGroups = FailedGroups(failures: nat, errors: Option<nat>)

  /** The dictionary evaluate_code_with_tests returns. */
  datatype TestReport = TestReport(passed: bool, testsRun: int, testsPassed: int, testsFailed: int)

  /** The counting block of evaluate_code_with_tests (utility_function.py:319-334),
      from the groups of the three regular-expression searches: "Ran N test(s)",
      then "FAILED (failures=..)" and, failing that, "FAILED (errors=N)". */
  function CountTestResults(ran: Option<nat>, failed: Option<FailedGroups>, errorsOnly: Option<nat>): (r: TestReport)
    ensures r.testsPassed + r.testsFailed == r.testsRun
    ensures r.passed <==> r.testsFailed == 0
    ensures r.testsRun == (if ran.Some? then ran.value else 0)
    ensures r.testsFailed >= 0
    ensures failed.Some? ==> r.testsFailed == failed.value.failures + (if failed.value.errors.Some? then failed.value.errors.value else 0)
    ensures failed.None? ==> r.testsFailed == (if errorsOnly.Some? then errorsOnly.value else 0)
  {
    var testsRun := if ran.Some? then ran.value else 0;
    var testsFailed :=
      if failed.Some? then failed.value.failures + (if failed.value.errors.Some? then failed.value.errors.value else 0)
      else if errorsOnly.Some? then errorsOnly.value
      else 0;
    TestReport(testsFailed == 0, testsRun, testsRun - testsFailed, testsFailed)
  }

  /** A run whose output reports no failure counts as passed, even when no test ran
      at all; a reported failure or error makes it fail. */
  lemma PassedWithoutFailureReport(ran: Option<nat>, failed: Option<FailedGroups>, errorsOnly: Option<nat>)
    ensures failed.None? && errorsOnly.None? ==> CountTestResults(ran, failed, errorsOnly).passed
    ensures CountTestResults(None, None, None) == TestReport(true, 0, 0, 0)
    ensures failed.Some? && (failed.value.failures > 0 || (failed.value.errors.Some? && failed.value.errors.value > 0)) ==>
              !CountTestResults(ran, failed, errorsOnly).passed
  {
  }
}
