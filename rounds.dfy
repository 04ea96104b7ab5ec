/** The steps every debate round of Code/Debate_strategies.py repeats: the opening
    answers, the readability score of each answer and one ballot per agent. */
module Rounds {
  import opened Py
  import opened Host
  import opened Metrics
  import opened Agents

  /** AGENTS_NO of Code/Debate_strategies.py. */
  const AgentsNo: nat := 3

  /** MAXROUNDS_NO of Code/Debate_strategies.py. */
  const MaxRoundsNo: int := 5

  /** A finished computation as the outcome of a Python call. */
  function Returned(r: Result<string>): (o: Outcome)
    ensures r.Ok? <==> o.Return?
    ensures r.Ok? ==> o.value == Str(r.value)
    ensures r.Err? ==> o.error == r.error
  {
    match r
    case Ok(s) => Return(Str(s))
    case Err(e) => Raise(e)
  }

  // ------------------------------------------------------------ opening answers

  /** get_first_response(agents[i], few_shot_prompt, user_prompt) for the first n
      agents, asked as round 0; IndexError when there are fewer than n agents. */
  function OpeningResponses(oracle: Oracle, agents: seq<Agent>, n: nat, fewShot: string, userPrompt: string): (r: Result<seq<string>>)
    ensures r.Ok? <==> n <= |agents|
    ensures r.Err? ==> r.error == IndexError
    ensures r.Ok? ==> |r.value| == n
    ensures r.Ok? ==> forall i :: 0 <= i < n ==> r.value[i] == oracle.ask(First(0, i, agents[i], fewShot, userPrompt))
  {
    if n <= |agents| then Ok(seq(n, i requires 0 <= i < n => oracle.ask(First(0, i, agents[i], fewShot, userPrompt))))
    else Err(IndexError)
  }

  /** The opening loop (Code/Debate_strategies.py:46-48): one answer per agent, in order. */
  method Open(oracle: Oracle, agents: array<Agent>, n: nat, fewShot: string, userPrompt: string) returns (r: Result<seq<string>>)
    ensures r == OpeningResponses(oracle, agents[..], n, fewShot, userPrompt)
  {
    var response: seq<string> := [];
    for i := 0 to n
      invariant |response| == i && i <= agents.Length
      invariant forall j :: 0 <= j < i ==> response[j] == oracle.ask(First(0, j, agents[j], fewShot, userPrompt))
    {
      if i >= agents.Length {
        return Err(IndexError);
      }
      response := response + [oracle.ask(First(0, i, agents[i], fewShot, userPrompt))];
    }
    var expected := OpeningResponses(oracle, agents[..], n, fewShot, userPrompt);
    assert expected.Ok? && |expected.value| == |response|;
    forall j | 0 <= j < n ensures expected.value[j] == response[j] {
      assert agents[..][j] == agents[j];
    }
    assert expected.value == response;
    return Ok(response);
  }

  // ------------------------------------------------------------ readability

  /** The readability score of one answer: json.loads, then ["code"], then the total
      of get_cognitive_complexity. A `code` value that is not a str reaches
      inspect.getsource, which raises TypeError. */
  function Readability(host: Host, response: string): (r: Result<int>)
    ensures host.loads(response).None? ==> r == Err(JsonDecodeError)
    ensures r.Ok? <==> && host.loads(response).Some?
                       && GetItem(host.loads(response).value, "code").Ok?
                       && GetItem(host.loads(response).value, "code").value.JStr?
                       && CognitiveComplexity(host, GetItem(host.loads(response).value, "code").value.s).Ok?
    ensures r.Ok? ==> r.value == CognitiveComplexity(host, GetItem(host.loads(response).value, "code").value.s).value.total
  {
    match host.loads(response)
    case None => Err(JsonDecodeError)
    case Some(j) =>
      match GetItem(j, "code")
      case Err(e) => Err(e)
      case Ok(code) =>
        if !code.JStr? then Err(TypeError)
        else
          match CognitiveComplexity(host, code.s)
          case Err(e) => Err(e)
          case Ok(score) => Ok(score.total)
  }

  /** The scores of the first n answers, in order; the first answer that cannot be
      scored raises, as does a list shorter than n (IndexError). */
  function ScoresUpTo(host: Host, responses: seq<string>, n: nat): (r: Result<seq<int>>)
    ensures r.Ok? <==> n <= |responses| && forall j :: 0 <= j < n ==> Readability(host, responses[j]).Ok?
    ensures r.Ok? ==> |r.value| == n && forall j :: 0 <= j < n ==> Readability(host, responses[j]) == Ok(r.value[j])
    decreases n
  {
    if n == 0 then Ok([])
    else
      match ScoresUpTo(host, responses, n - 1)
      case Err(e) => Err(e)
      case Ok(front) =>
        if n - 1 >= |responses| then Err(IndexError)
        else
          match Readability(host, responses[n - 1])
          case Err(e) => Err(e)
          case Ok(v) => Ok(front + [v])
  }

  /** The scoring loop (Code/Debate_strategies.py:66-71). */
  method MeasureReadability(host: Host, responses: seq<string>, n: nat) returns (r: Result<seq<int>>)
    ensures r == ScoresUpTo(host, responses, n)
  {
    var readabilityComplexity: seq<int> := [];
    for i := 0 to n
      invariant ScoresUpTo(host, responses, i) == Ok(readabilityComplexity)
    {
      if i >= |responses| {
        ScoresFailFrom(host, responses, i + 1, n);
        return Err(IndexError);
      }
      var total := Readability(host, responses[i]);
      if total.Err? {
        ScoresFailFrom(host, responses, i + 1, n);
        return Err(total.error);
      }
      readabilityComplexity := readabilityComplexity + [total.value];
    }
    r := Ok(readabilityComplexity);
  }

  /** Once a prefix fails to score, every longer prefix fails with the same error. */
  lemma {:induction false} ScoresFailFrom(host: Host, responses: seq<string>, m: nat, n: nat)
    requires m <= n && ScoresUpTo(host, responses, m).Err?
    ensures ScoresUpTo(host, responses, n) == ScoresUpTo(host, responses, m)
    decreases n - m
  {
    if m < n {
      ScoresFailFrom(host, responses, m, n - 1);
    }
  }

  // ------------------------------------------------------------ ballots

  /** One ballot per agent on the numbered list of the current answers and their
      scores, each agent asked with the same prompt. */
  function Ballots(oracle: Oracle, round: int, agents: seq<Agent>, n: nat, userPrompt: string,
                   responses: seq<string>, scores: seq<int>): (b: seq<string>)
    requires n <= |agents|
    ensures |b| == n
    ensures forall i :: 0 <= i < n ==> b[i] == oracle.ask(Ballot(round, i, agents[i], userPrompt, responses, scores))
  {
    seq(n, i requires 0 <= i < n => oracle.ask(Ballot(round, i, agents[i], userPrompt, responses, scores)))
  }

  /** The ballot loop (Code/Debate_strategies.py:92-93 and 178-180). */
  method CollectBallots(oracle: Oracle, round: int, agents: seq<Agent>, n: nat, userPrompt: string,
                        responses: seq<string>, scores: seq<int>) returns (feedback: seq<string>)
    requires n <= |agents|
    ensures feedback == Ballots(oracle, round, agents, n, userPrompt, responses, scores)
  {
    feedback := [];
    for i := 0 to n
      invariant |feedback| == i
      invariant forall j :: 0 <= j < i ==> feedback[j] == oracle.ask(Ballot(round, j, agents[j], userPrompt, responses, scores))
    {
      feedback := feedback + [oracle.ask(Ballot(round, i, agents[i], userPrompt, responses, scores))];
    }
  }
}
