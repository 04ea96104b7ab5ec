/** The two-agent debate protocols: simulate_round of Code/main.py (lines 11-76),
    of Code/main_test_inputs.py (lines 16-118), which also measures the running
    time and the readability of every answer and then fails on a call with a
    missing argument, and of Code/main2_round.py (lines 7-58), which spells the two
    agents out; and the "-1" test their callers apply to the result
    (Code/main.py:131-132, Code/main_test_inputs.py:211-212).

    In each round every agent reviews its own answer against the other one and
    says whether it wants to improve it; the agents that do revise their answers in
    slot order, so the later one sees the earlier one's revision. */
module Protocols {
  import opened Py
  import opened Host
  import opened Metrics
  import opened Agents
  import opened Rounds

  /** AGENTS_NO of Code/main.py and Code/main_test_inputs.py. */
  const PairAgentsNo: nat := 2

  // ------------------------------------------------------------ reviews

  /** The test of Code/main.py:52: an agent wants to improve its answer when its
      reply says "yes", or says neither "yes" nor "no" (case-insensitively). */
  predicate Improvable(feedback: string)
  {
    var f := Lower(feedback);
    Contains(f, "yes") || (!Contains(f, "yes") && !Contains(f, "no"))
  }

  /** answers_improvable: the slots among the first n whose reply is Improvable, in
      increasing order. No slot is listed exactly when every reply says "no" and
      not "yes". */
  function ImprovableIndices(feedback: seq<string>, n: nat): (r: seq<nat>)
    requires n <= |feedback|
    ensures forall a, b :: 0 <= a < b < |r| ==> r[a] < r[b]
    ensures forall k :: 0 <= k < |r| ==> r[k] < n
    decreases n
  {
    if n == 0 then []
    else
      var front := ImprovableIndices(feedback, n - 1);
      if Improvable(feedback[n - 1]) then front + [n - 1] else front
  }

  /** A slot is listed exactly when its reply is Improvable. */
  lemma {:induction false} ImprovableListed(feedback: seq<string>, n: nat)
    requires n <= |feedback|
    ensures forall i :: 0 <= i < n ==> (i in ImprovableIndices(feedback, n) <==> Improvable(feedback[i]))
    decreases n
  {
    if n > 0 {
      ImprovableListed(feedback, n - 1);
      var front := ImprovableIndices(feedback, n - 1);
      assert n - 1 in front + [n - 1];
      assert n - 1 !in front;
      assert forall i :: i in front + [n - 1] <==> i in front || i == n - 1;
    }
  }

  /** The slots are listed as their replies say: a slot is listed exactly when its
      reply is Improvable, and none is listed exactly when every reply says "no"
      and not "yes". */
  lemma ImprovableIndicesMeaning(feedback: seq<string>, n: nat)
    requires n <= |feedback|
    ensures forall i :: 0 <= i < n ==> (i in ImprovableIndices(feedback, n) <==> Improvable(feedback[i]))
    ensures ImprovableIndices(feedback, n) == [] <==>
              forall i :: 0 <= i < n ==> Contains(Lower(feedback[i]), "no") && !Contains(Lower(feedback[i]), "yes")
  {
    ImprovableListed(feedback, n);
    var r := ImprovableIndices(feedback, n);
    if r != [] {
      assert r[0] in r;
    }
  }

  /** The improvability loop (Code/main.py:50-53). */
  method ImprovableAgents(feedback: seq<string>) returns (answersImprovable: seq<nat>)
    requires |feedback| == PairAgentsNo
    ensures answersImprovable == ImprovableIndices(feedback, PairAgentsNo)
  {
    answersImprovable := [];
    for i := 0 to PairAgentsNo
      invariant answersImprovable == ImprovableIndices(feedback, i)
    {
      if Improvable(feedback[i]) {
        answersImprovable := answersImprovable + [i];
      }
    }
  }

  /** get_agreement on getDiscussionFeedbackPrompt(response[i], other_responses),
      one reply per agent. */
  function Reviews(oracle: Oracle, round: int, agents: seq<Agent>, userPrompt: string, responses: seq<string>): (f: seq<string>)
    requires |agents| >= PairAgentsNo && |responses| == PairAgentsNo
    ensures |f| == PairAgentsNo
    ensures forall i :: 0 <= i < PairAgentsNo ==>
              f[i] == oracle.ask(Review(round, i, agents[i], userPrompt, responses[i], Without(responses, i)))
  {
    seq(PairAgentsNo, i requires 0 <= i < PairAgentsNo =>
      oracle.ask(Review(round, i, agents[i], userPrompt, responses[i], Without(responses, i))))
  }

  /** The prompt and review loops of Code/main.py:30-42. */
  method CollectReviews(oracle: Oracle, round: int, agents: seq<Agent>, userPrompt: string, response: seq<string>)
    returns (feedback: seq<string>)
    requires |agents| >= PairAgentsNo && |response| == PairAgentsNo
    ensures feedback == Reviews(oracle, round, agents, userPrompt, response)
  {
    feedback := [];
    for i := 0 to PairAgentsNo
      invariant |feedback| == i
      invariant forall j :: 0 <= j < i ==>
                  feedback[j] == oracle.ask(Review(round, j, agents[j], userPrompt, response[j], Without(response, j)))
    {
      var otherResponses := Without(response, i);
      feedback := feedback + [oracle.ask(Review(round, i, agents[i], userPrompt, response[i], otherResponses))];
    }
  }

  // ------------------------------------------------------------ revisions

  /** The answers after the first k slots of `order` have revised theirs, in turn,
      each in view of the other answers as they stand at that moment. */
  function Revised(oracle: Oracle, round: int, agents: seq<Agent>, userPrompt: string,
                   responses: seq<string>, order: seq<nat>, k: nat): (q: seq<string>)
    requires k <= |order| && forall t :: 0 <= t < |order| ==> order[t] < |responses| && order[t] < |agents|
    ensures |q| == |responses|
    decreases k
  {
    if k == 0 then responses
    else
      var p := Revised(oracle, round, agents, userPrompt, responses, order, k - 1);
      var i := order[k - 1];
      p[i := oracle.ask(Revise(round, i, agents[i], userPrompt, p[i], Without(p, i)))]
  }

  /** The revision loop (Code/main.py:63-67). */
  method ReviseInTurn(oracle: Oracle, round: int, agents: seq<Agent>, userPrompt: string,
                      responses: seq<string>, answersImprovable: seq<nat>) returns (response: seq<string>)
    requires forall t :: 0 <= t < |answersImprovable| ==> answersImprovable[t] < |responses| && answersImprovable[t] < |agents|
    ensures response == Revised(oracle, round, agents, userPrompt, responses, answersImprovable, |answersImprovable|)
  {
    response := responses;
    for k := 0 to |answersImprovable|
      invariant response == Revised(oracle, round, agents, userPrompt, responses, answersImprovable, k)
    {
      var i := answersImprovable[k];
      var otherResponses := Without(response, i);
      var revision := oracle.ask(Revise(round, i, agents[i], userPrompt, response[i], otherResponses));
      assert Revised(oracle, round, agents, userPrompt, responses, answersImprovable, k + 1) == response[i := revision];
      response := response[i := revision];
    }
  }

  /** The answers after the improvable agents of a pair have revised theirs. */
  function RevisedPair(oracle: Oracle, round: int, agents: seq<Agent>, userPrompt: string,
                       responses: seq<string>, feedback: seq<string>): (q: seq<string>)
    requires |agents| >= PairAgentsNo && |responses| == PairAgentsNo && |feedback| == PairAgentsNo
    ensures |q| == PairAgentsNo
  {
    var order := ImprovableIndices(feedback, PairAgentsNo);
    Revised(oracle, round, agents, userPrompt, responses, order, |order|)
  }

  /** With two agents: the first one, when improvable, revises its answer against
      the second one's answer; the second one, when improvable, revises its answer
      against the first one's answer as the first agent left it. An agent that is
      not improvable keeps its answer. */
  lemma PairRevisionRule(oracle: Oracle, round: int, agents: seq<Agent>, userPrompt: string,
                         responses: seq<string>, feedback: seq<string>)
    requires |agents| >= PairAgentsNo && |responses| == PairAgentsNo && |feedback| == PairAgentsNo
    ensures var q := RevisedPair(oracle, round, agents, userPrompt, responses, feedback);
            && q[0] == (if Improvable(feedback[0])
                        then oracle.ask(Revise(round, 0, agents[0], userPrompt, responses[0], [responses[1]]))
                        else responses[0])
            && q[1] == (if Improvable(feedback[1])
                        then oracle.ask(Revise(round, 1, agents[1], userPrompt, responses[1], [q[0]]))
                        else responses[1])
  {
    var order := ImprovableIndices(feedback, PairAgentsNo);
    PairOrder(feedback);
    var q := RevisedPair(oracle, round, agents, userPrompt, responses, feedback);
    var r0 := oracle.ask(Revise(round, 0, agents[0], userPrompt, responses[0], [responses[1]]));
    assert Without(responses, 0) == [responses[1]];
    if Improvable(feedback[0]) {
      var p := Revised(oracle, round, agents, userPrompt, responses, order, 1);
      assert p == responses[0 := r0];
      if Improvable(feedback[1]) {
        assert Without(p, 1) == [r0];
        assert q == p[1 := oracle.ask(Revise(round, 1, agents[1], userPrompt, responses[1], [r0]))];
      } else {
        assert q == p;
      }
    } else if Improvable(feedback[1]) {
      assert Without(responses, 1) == [responses[0]];
      assert q == responses[1 := oracle.ask(Revise(round, 1, agents[1], userPrompt, responses[1], [responses[0]]))];
    } else {
      assert q == responses;
    }
  }

  /** The improvable slots of a pair, spelled out. */
  lemma PairOrder(feedback: seq<string>)
    requires |feedback| == PairAgentsNo
    ensures ImprovableIndices(feedback, PairAgentsNo) ==
            (if Improvable(feedback[0]) then [0] else []) + (if Improvable(feedback[1]) then [1] else [])
  {
    assert ImprovableIndices(feedback, 1) == (if Improvable(feedback[0]) then [0] else []);
  }

  // ------------------------------------------------------------ Code/main.py

  /** The two answers at the top of the debate loop and the round counter. */
  datatype Exchange = Exchange(responses: seq<string>, round: int)

  /** The result of one pass through a protocol's loop. */
  datatype Turn = Done(outcome: Outcome) | Continue(next: Exchange)

  /** What a round does once the reviews are in: when no agent is improvable the
      debate ends with the first answer, otherwise the improvable agents revise
      and the counter advances. */
  function Settle(oracle: Oracle, agents: seq<Agent>, userPrompt: string, s: Exchange, feedback: seq<string>)
    : (t: Turn)
    requires |agents| >= PairAgentsNo && |s.responses| == PairAgentsNo && |feedback| == PairAgentsNo
    ensures t.Continue? ==> |t.next.responses| == PairAgentsNo && t.next.round == s.round + 1
  {
    if ImprovableIndices(feedback, PairAgentsNo) == [] then Done(Return(Str(s.responses[0])))
    else Continue(Exchange(RevisedPair(oracle, s.round, agents, userPrompt, s.responses, feedback), s.round + 1))
  }

  /** The improvability and revision loops of one round (Code/main.py:49-69). */
  method SettleStep(oracle: Oracle, agents: seq<Agent>, userPrompt: string, response: seq<string>, round: int,
                    feedback: seq<string>) returns (t: Turn)
    requires |agents| >= PairAgentsNo && |response| == PairAgentsNo && |feedback| == PairAgentsNo
    ensures t == Settle(oracle, agents, userPrompt, Exchange(response, round), feedback)
  {
    var answersImprovable := ImprovableAgents(feedback);
    if |answersImprovable| == 0 {
      return Done(Return(Str(response[0])));
    }
    var revised := ReviseInTurn(oracle, round, agents, userPrompt, response, answersImprovable);
    t := Continue(Exchange(revised, round + 1));
  }

  /** One round of Code/main.py: reviews; agreement, when no agent is improvable,
      returns the first answer; otherwise the improvable agents revise. */
  function MainRound(oracle: Oracle, agents: seq<Agent>, userPrompt: string, s: Exchange): (t: Turn)
    requires |agents| >= PairAgentsNo && |s.responses| == PairAgentsNo
    ensures t.Continue? ==> |t.next.responses| == PairAgentsNo && t.next.round == s.round + 1
  {
    Settle(oracle, agents, userPrompt, s, Reviews(oracle, s.round, agents, userPrompt, s.responses))
  }

  /** The loop from state s on; past max_rounds the protocol returns -1. */
  function MainFrom(oracle: Oracle, agents: seq<Agent>, userPrompt: string, maxRounds: int, s: Exchange): Outcome
    requires |agents| >= PairAgentsNo && |s.responses| == PairAgentsNo
    decreases maxRounds - s.round
  {
    if s.round > maxRounds then Return(Int(-1))
    else
      match MainRound(oracle, agents, userPrompt, s)
      case Done(o) => o
      case Continue(t) => MainFrom(oracle, agents, userPrompt, maxRounds, t)
  }

  /** simulate_round of Code/main.py as a whole. */
  function MainDebate(oracle: Oracle, agents: seq<Agent>, fewShot: string, userPrompt: string, maxRounds: int): Outcome
  {
    match OpeningResponses(oracle, agents, PairAgentsNo, fewShot, userPrompt)
    case Err(e) => Raise(e)
    case Ok(responses) => MainFrom(oracle, agents, userPrompt, maxRounds, Exchange(responses, 1))
  }

  /** simulate_round (Code/main.py:11-76). The agent list is only read. */
  method SimulateRound(oracle: Oracle, userPrompt: string, fewShot: string, agents: array<Agent>, maxRounds: int)
    returns (r: Outcome)
    ensures r == MainDebate(oracle, agents[..], fewShot, userPrompt, maxRounds)
  {
    var opening := Open(oracle, agents, PairAgentsNo, fewShot, userPrompt);
    if opening.Err? {
      return Raise(opening.error);
    }
    var response := opening.value;
    var round := 1;
    while round <= maxRounds
      invariant |response| == PairAgentsNo && agents.Length >= PairAgentsNo
      invariant MainFrom(oracle, agents[..], userPrompt, maxRounds, Exchange(response, round))
             == MainDebate(oracle, agents[..], fewShot, userPrompt, maxRounds)
      decreases maxRounds - round
    {
      var feedback := CollectReviews(oracle, round, agents[..], userPrompt, response);
      var t := SettleStep(oracle, agents[..], userPrompt, response, round, feedback);
      if t.Done? {
        return t.outcome;
      }
      response := t.next.responses;
      round := round + 1;
    }
    // the test at Code/main.py:72 always holds once the loop is left
    r := Return(Int(-1));
  }

  /** Code/main.py's protocol raises only for fewer than two agents (IndexError),
      and otherwise returns either an answer (a str) or the int -1. */
  lemma MainOutcomes(oracle: Oracle, agents: seq<Agent>, fewShot: string, userPrompt: string, maxRounds: int)
    ensures var o := MainDebate(oracle, agents, fewShot, userPrompt, maxRounds);
            && (o.Raise? <==> |agents| < PairAgentsNo)
            && (o.Raise? ==> o.error == IndexError)
            && (o.Return? ==> o.value.Str? || o.value == Int(-1))
  {
    match OpeningResponses(oracle, agents, PairAgentsNo, fewShot, userPrompt)
    case Err(_) =>
    case Ok(responses) => MainFromReturns(oracle, agents, userPrompt, maxRounds, Exchange(responses, 1));
  }

  lemma {:induction false} MainFromReturns(oracle: Oracle, agents: seq<Agent>, userPrompt: string, maxRounds: int, s: Exchange)
    requires |agents| >= PairAgentsNo && |s.responses| == PairAgentsNo
    ensures var o := MainFrom(oracle, agents, userPrompt, maxRounds, s);
            o.Return? && (o.value.Str? || o.value == Int(-1))
    decreases maxRounds - s.round
  {
    if s.round <= maxRounds {
      match MainRound(oracle, agents, userPrompt, s)
      case Done(_) =>
      case Continue(t) => MainFromReturns(oracle, agents, userPrompt, maxRounds, t);
    }
  }

  /** A round of Code/main.py ends the debate exactly when both agents' replies say
      "no" and not "yes"; it then returns the first agent's answer as it stands. */
  lemma MainAgreementRule(oracle: Oracle, agents: seq<Agent>, userPrompt: string, s: Exchange)
    requires |agents| >= PairAgentsNo && |s.responses| == PairAgentsNo
    ensures var f := Reviews(oracle, s.round, agents, userPrompt, s.responses);
            MainRound(oracle, agents, userPrompt, s).Done? <==>
              forall i :: 0 <= i < PairAgentsNo ==> Contains(Lower(f[i]), "no") && !Contains(Lower(f[i]), "yes")
    ensures MainRound(oracle, agents, userPrompt, s).Done? ==> MainRound(oracle, agents, userPrompt, s).outcome == Return(Str(s.responses[0]))
  {
  }

  /** A review reply that always asks for improvement: such agents never agree. */
  ghost predicate AlwaysImproving(oracle: Oracle)
  {
    forall c: Call :: c.Review? ==> Improvable(oracle.ask(c))
  }

  /** Agents that always want to improve never agree, and with two agents the
      protocol of Code/main.py then returns -1 after max_rounds rounds (at once
      when max_rounds is below 1). */
  lemma RestlessAgentsFail(oracle: Oracle, agents: seq<Agent>, fewShot: string, userPrompt: string, maxRounds: int)
    requires |agents| >= PairAgentsNo && AlwaysImproving(oracle)
    ensures MainDebate(oracle, agents, fewShot, userPrompt, maxRounds) == Return(Int(-1))
  {
    var responses := OpeningResponses(oracle, agents, PairAgentsNo, fewShot, userPrompt).value;
    RestlessFrom(oracle, agents, userPrompt, maxRounds, Exchange(responses, 1));
  }

  lemma {:induction false} RestlessFrom(oracle: Oracle, agents: seq<Agent>, userPrompt: string, maxRounds: int, s: Exchange)
    requires |agents| >= PairAgentsNo && |s.responses| == PairAgentsNo && AlwaysImproving(oracle)
    ensures MainFrom(oracle, agents, userPrompt, maxRounds, s) == Return(Int(-1))
    decreases maxRounds - s.round
  {
    if s.round <= maxRounds {
      var feedback := Reviews(oracle, s.round, agents, userPrompt, s.responses);
      assert Improvable(feedback[0]);
      assert 0 in ImprovableIndices(feedback, PairAgentsNo);
      match MainRound(oracle, agents, userPrompt, s)
      case Done(_) =>
      case Continue(t) => RestlessFrom(oracle, agents, userPrompt, maxRounds, t);
    }
  }

  // ------------------------------------------------------------ Code/main_test_inputs.py

  /** The measured running time of one answer: json.loads, extract_input_values,
      then calculate_time_complexity, which runs the answer's code on those inputs.
      The measurement is the `timing` parameter: its text, or the exception that
      running the code raised. */
  function Timing(host: Host, timing: (Json, seq<Json>) -> Result<string>, response: string): (r: Result<string>)
    ensures host.loads(response).None? ==> r == Err(JsonDecodeError)
    ensures r.Ok? <==> && host.loads(response).Some?
                       && InputValues(host.loads(response).value).Ok?
                       && timing(host.loads(response).value, InputValues(host.loads(response).value).value).Ok?
    ensures r.Ok? ==> r == timing(host.loads(response).value, InputValues(host.loads(response).value).value)
  {
    match host.loads(response)
    case None => Err(JsonDecodeError)
    case Some(j) =>
      match InputValues(j)
      case Err(e) => Err(e)
      case Ok(inputs) => timing(j, inputs)
  }

  /** The times of the first n answers, in order; the first that cannot be measured
      raises, as does a list shorter than n (IndexError). */
  function TimesUpTo(host: Host, timing: (Json, seq<Json>) -> Result<string>, responses: seq<string>, n: nat)
    : (r: Result<seq<string>>)
    ensures r.Ok? <==> n <= |responses| && forall j :: 0 <= j < n ==> Timing(host, timing, responses[j]).Ok?
    ensures r.Ok? ==> |r.value| == n && forall j :: 0 <= j < n ==> Timing(host, timing, responses[j]) == Ok(r.value[j])
    decreases n
  {
    if n == 0 then Ok([])
    else
      match TimesUpTo(host, timing, responses, n - 1)
      case Err(e) => Err(e)
      case Ok(front) =>
        if n - 1 >= |responses| then Err(IndexError)
        else
          match Timing(host, timing, responses[n - 1])
          case Err(e) => Err(e)
          case Ok(v) => Ok(front + [v])
  }

  /** Once a prefix fails to be measured, every longer prefix fails with the same error. */
  lemma {:induction false} TimesFailFrom(host: Host, timing: (Json, seq<Json>) -> Result<string>, responses: seq<string>, m: nat, n: nat)
    requires m <= n && TimesUpTo(host, timing, responses, m).Err?
    ensures TimesUpTo(host, timing, responses, n) == TimesUpTo(host, timing, responses, m)
    decreases n - m
  {
    if m < n {
      TimesFailFrom(host, timing, responses, m, n - 1);
    }
  }

  /** The time loop (Code/main_test_inputs.py:36-42). */
  method MeasureTimes(host: Host, timing: (Json, seq<Json>) -> Result<string>, response: seq<string>, n: nat)
    returns (r: Result<seq<string>>)
    ensures r == TimesUpTo(host, timing, response, n)
  {
    var timeComplexity: seq<string> := [];
    for i := 0 to n
      invariant TimesUpTo(host, timing, response, i) == Ok(timeComplexity)
    {
      if i >= |response| {
        TimesFailAt(host, timing, response, i, n, timeComplexity);
        return Err(IndexError);
      }
      var responseJson := host.loads(response[i]);
      if responseJson.None? {
        TimesFailAt(host, timing, response, i, n, timeComplexity);
        return Err(JsonDecodeError);
      }
      var inputValues := ExtractInputValues(responseJson.value);
      if inputValues.Err? {
        TimesFailAt(host, timing, response, i, n, timeComplexity);
        return Err(inputValues.error);
      }
      var measured := timing(responseJson.value, inputValues.value);
      if measured.Err? {
        TimesFailAt(host, timing, response, i, n, timeComplexity);
        return Err(measured.error);
      }
      timeComplexity := timeComplexity + [measured.value];
    }
    r := Ok(timeComplexity);
  }

  /** The i-th answer cannot be measured, or is missing: the times of n answers
      fail with its error. */
  lemma TimesFailAt(host: Host, timing: (Json, seq<Json>) -> Result<string>, responses: seq<string>, i: nat, n: nat,
                    front: seq<string>)
    requires i < n && TimesUpTo(host, timing, responses, i) == Ok(front)
    requires i >= |responses| || Timing(host, timing, responses[i]).Err?
    ensures TimesUpTo(host, timing, responses, n) ==
            if i >= |responses| then Err(IndexError) else Err(Timing(host, timing, responses[i]).error)
  {
    TimesFailFrom(host, timing, responses, i + 1, n);
  }

  /** One pass through the loop of Code/main_test_inputs.py: measure every answer's
      time, then its readability, then build agent 0's discussion prompt. That call
      (lines 73-75) passes six arguments to get_discussion_feedback_prompt_test_inputs,
      which requires seven (Code/LLM_definition.py:75-76), so it raises TypeError
      before any agent is asked: a pass never gets to the reviews. */
  function MeasuredRound(host: Host, timing: (Json, seq<Json>) -> Result<string>, responses: seq<string>): (o: Outcome)
    requires |responses| == PairAgentsNo
    ensures o.Raise?
  {
    match TimesUpTo(host, timing, responses, PairAgentsNo)
    case Err(e) => Raise(e)
    case Ok(_) =>
      match ScoresUpTo(host, responses, PairAgentsNo)
      case Err(e) => Raise(e)
      case Ok(_) => Raise(TypeError)
  }

  /** simulate_round of Code/main_test_inputs.py as a whole; its opening answers come
      from get_first_response_test_inputs, which puts the same question as
      get_first_response. The loop runs when max_rounds is at least 1 and its first
      pass ends the function; a loop that never runs falls off the end of the
      function, which returns None. */
  function MeasuredDebate(oracle: Oracle, host: Host, timing: (Json, seq<Json>) -> Result<string>, agents: seq<Agent>,
                          fewShot: string, userPrompt: string, maxRounds: int): Outcome
  {
    match OpeningResponses(oracle, agents, PairAgentsNo, fewShot, userPrompt)
    case Err(e) => Raise(e)
    case Ok(responses) => if 1 <= maxRounds then MeasuredRound(host, timing, responses) else Return(NoneValue)
  }

  /** One pass through the loop of Code/main_test_inputs.py, up to the failing call. */
  method MeasuredStep(host: Host, timing: (Json, seq<Json>) -> Result<string>, response: seq<string>) returns (o: Outcome)
    requires |response| == PairAgentsNo
    ensures o == MeasuredRound(host, timing, response)
  {
    var timeComplexity := MeasureTimes(host, timing, response, PairAgentsNo);
    if timeComplexity.Err? {
      return Raise(timeComplexity.error);
    }
    var readabilityComplexity := MeasureReadability(host, response, PairAgentsNo);
    if readabilityComplexity.Err? {
      return Raise(readabilityComplexity.error);
    }
    // get_discussion_feedback_prompt_test_inputs is missing its AGENTS_NO argument
    o := Raise(TypeError);
  }

  /** simulate_round (Code/main_test_inputs.py:16-118), with the running time of an
      answer's code supplied by `timing`. The first pass of the loop always raises,
      so the reviews, the revisions, the counter update and the limit test of
      lines 78-118 are never reached. */
  method SimulateMeasuredRound(oracle: Oracle, host: Host, timing: (Json, seq<Json>) -> Result<string>, userPrompt: string,
                               fewShot: string, agents: array<Agent>, maxRounds: int) returns (r: Outcome)
    ensures r == MeasuredDebate(oracle, host, timing, agents[..], fewShot, userPrompt, maxRounds)
  {
    var opening := Open(oracle, agents, PairAgentsNo, fewShot, userPrompt);
    if opening.Err? {
      return Raise(opening.error);
    }
    var response := opening.value;
    var round := 1;
    // the while loop of line 32, which cannot get past its first pass
    if round <= maxRounds {
      r := MeasuredStep(host, timing, response);
      return;
    }
    r := Return(NoneValue);
  }

  /** Code/main_test_inputs.py's protocol never returns an answer or -1: with two
      agents it returns None exactly when max_rounds is below 1, and otherwise it
      raises; too few agents raise IndexError. */
  lemma MeasuredNeverAnswers(oracle: Oracle, host: Host, timing: (Json, seq<Json>) -> Result<string>,
                             agents: seq<Agent>, fewShot: string, userPrompt: string, maxRounds: int)
    ensures var o := MeasuredDebate(oracle, host, timing, agents, fewShot, userPrompt, maxRounds);
            && (o == Return(NoneValue) <==> |agents| >= PairAgentsNo && maxRounds < 1)
            && (o != Return(NoneValue) ==> o.Raise?)
    ensures |agents| < PairAgentsNo ==> MeasuredDebate(oracle, host, timing, agents, fewShot, userPrompt, maxRounds) == Raise(IndexError)
  {
  }

  /** Once both measurements succeed on the opening answers, the protocol raises
      TypeError in its first round; otherwise it raises the first measurement error. */
  lemma MeasuredRaisesTypeError(oracle: Oracle, host: Host, timing: (Json, seq<Json>) -> Result<string>,
                                agents: seq<Agent>, fewShot: string, userPrompt: string, maxRounds: int)
    requires |agents| >= PairAgentsNo && 1 <= maxRounds
    ensures var opening := OpeningResponses(oracle, agents, PairAgentsNo, fewShot, userPrompt);
            opening.Ok? ==>
              var times := TimesUpTo(host, timing, opening.value, PairAgentsNo);
              var scores := ScoresUpTo(host, opening.value, PairAgentsNo);
              MeasuredDebate(oracle, host, timing, agents, fewShot, userPrompt, maxRounds) ==
                if times.Err? then Raise(times.error)
                else if scores.Err? then Raise(scores.error)
                else Raise(TypeError)
  {
  }

  // ------------------------------------------------------------ Code/main2_round.py

  /** The two answers of Code/main2_round.py and the round counter. */
  datatype Duel = Duel(first: string, second: string, round: int)

  /** How simulate_round of Code/main2_round.py ends (it always returns None): with
      the agreement, which reports the first answer, or with both partial answers
      once max_rounds is passed. */
  datatype Close = Close(first: string, second: string, round: int, agreed: bool)

  datatype DuelTurn = Agreed(close: Close) | Went(next: Duel)

  /** One round: both agents review; when both replies say "no" the debate ends,
      whatever else they say; otherwise an agent whose reply says "yes" revises,
      the second one in view of the first one's revision. */
  function DuelRound(oracle: Oracle, model1: Agent, model2: Agent, userPrompt: string, s: Duel): (t: DuelTurn)
    ensures t.Went? ==> t.next.round == s.round + 1
  {
    var feedback1 := oracle.ask(Review(s.round, 0, model1, userPrompt, s.first, [s.second]));
    var feedback2 := oracle.ask(Review(s.round, 1, model2, userPrompt, s.second, [s.first]));
    if Contains(Lower(feedback1), "no") && Contains(Lower(feedback2), "no") then
      Agreed(Close(s.first, s.second, s.round, true))
    else
      var first := if Contains(Lower(feedback1), "yes") then oracle.ask(Revise(s.round, 0, model1, userPrompt, s.first, [s.second])) else s.first;
      var second := if Contains(Lower(feedback2), "yes") then oracle.ask(Revise(s.round, 1, model2, userPrompt, s.second, [first])) else s.second;
      Went(Duel(first, second, s.round + 1))
  }

  /** The loop from state s on. */
  function DuelFrom(oracle: Oracle, model1: Agent, model2: Agent, userPrompt: string, maxRounds: int, s: Duel): Close
    decreases maxRounds - s.round
  {
    if s.round > maxRounds then Close(s.first, s.second, s.round, false)
    else
      match DuelRound(oracle, model1, model2, userPrompt, s)
      case Agreed(c) => c
      case Went(t) => DuelFrom(oracle, model1, model2, userPrompt, maxRounds, t)
  }

  /** simulate_round of Code/main2_round.py as a whole. Its opening answers come
      from the module-level agents `model1` and `model2`, not from its parameters
      `model_1` and `model_2`, which answer the rest; the two pairs are kept apart. */
  function DuelDebate(oracle: Oracle, opener1: Agent, opener2: Agent, model1: Agent, model2: Agent,
                      fewShot: string, userPrompt: string, maxRounds: int): Close
  {
    var first := oracle.ask(First(0, 0, opener1, fewShot, userPrompt));
    var second := oracle.ask(First(0, 1, opener2, fewShot, userPrompt));
    DuelFrom(oracle, model1, model2, userPrompt, maxRounds, Duel(first, second, 1))
  }

  /** One pass through the loop of Code/main2_round.py. */
  method DuelStep(oracle: Oracle, model1: Agent, model2: Agent, userPrompt: string, response1: string, response2: string, round: int)
    returns (t: DuelTurn)
    ensures t == DuelRound(oracle, model1, model2, userPrompt, Duel(response1, response2, round))
  {
    var feedback1 := oracle.ask(Review(round, 0, model1, userPrompt, response1, [response2]));
    var feedback2 := oracle.ask(Review(round, 1, model2, userPrompt, response2, [response1]));
    if Contains(Lower(feedback1), "no") && Contains(Lower(feedback2), "no") {
      return Agreed(Close(response1, response2, round, true));
    }
    var first := response1;
    var second := response2;
    if Contains(Lower(feedback1), "yes") {
      first := oracle.ask(Revise(round, 0, model1, userPrompt, first, [second]));
    }
    if Contains(Lower(feedback2), "yes") {
      second := oracle.ask(Revise(round, 1, model2, userPrompt, second, [first]));
    }
    t := Went(Duel(first, second, round + 1));
  }

  /** simulate_round (Code/main2_round.py:7-58). */
  method SimulateDuel(oracle: Oracle, opener1: Agent, opener2: Agent, userPrompt: string, fewShot: string,
                      model1: Agent, model2: Agent, maxRounds: int) returns (c: Close)
    ensures c == DuelDebate(oracle, opener1, opener2, model1, model2, fewShot, userPrompt, maxRounds)
  {
    var response1 := oracle.ask(First(0, 0, opener1, fewShot, userPrompt));
    var response2 := oracle.ask(First(0, 1, opener2, fewShot, userPrompt));
    var round := 1;
    while round <= maxRounds
      invariant DuelFrom(oracle, model1, model2, userPrompt, maxRounds, Duel(response1, response2, round))
             == DuelDebate(oracle, opener1, opener2, model1, model2, fewShot, userPrompt, maxRounds)
      decreases maxRounds - round
    {
      var t := DuelStep(oracle, model1, model2, userPrompt, response1, response2, round);
      if t.Agreed? {
        return t.close;
      }
      response1, response2 := t.next.first, t.next.second;
      round := round + 1;
    }
    c := Close(response1, response2, round, false);
  }

  /** Code/main2_round.py ends by agreement exactly when it ends within max_rounds,
      and otherwise one round past it (or in round 1 when max_rounds is below 1). */
  lemma {:induction false} DuelEndsAgreedIffInTime(oracle: Oracle, model1: Agent, model2: Agent, userPrompt: string,
                                                   maxRounds: int, s: Duel)
    requires s.round >= 1
    ensures var c := DuelFrom(oracle, model1, model2, userPrompt, maxRounds, s);
            && c.round >= s.round
            && (c.agreed <==> c.round <= maxRounds)
            && (!c.agreed ==> c.round == (if maxRounds < s.round then s.round else maxRounds + 1))
    decreases maxRounds - s.round
  {
    if s.round <= maxRounds {
      match DuelRound(oracle, model1, model2, userPrompt, s)
      case Agreed(_) =>
      case Went(t) => DuelEndsAgreedIffInTime(oracle, model1, model2, userPrompt, maxRounds, t);
    }
  }

  /** Replies that say neither "yes" nor "no" change nothing in Code/main2_round.py:
      the debate runs out of rounds with the opening answers. (The protocol of
      Code/main.py would instead have both agents revise.) */
  lemma {:induction false} SilentReviewsKeepAnswers(oracle: Oracle, model1: Agent, model2: Agent, userPrompt: string,
                                                    maxRounds: int, s: Duel)
    requires forall c: Call :: c.Review? ==> !Contains(Lower(oracle.ask(c)), "yes") && !Contains(Lower(oracle.ask(c)), "no")
    ensures var c := DuelFrom(oracle, model1, model2, userPrompt, maxRounds, s);
            !c.agreed && c.first == s.first && c.second == s.second
    decreases maxRounds - s.round
  {
    if s.round <= maxRounds {
      var feedback1 := oracle.ask(Review(s.round, 0, model1, userPrompt, s.first, [s.second]));
      var feedback2 := oracle.ask(Review(s.round, 1, model2, userPrompt, s.second, [s.first]));
      assert !Contains(Lower(feedback1), "no") && !Contains(Lower(feedback2), "yes");
      assert DuelRound(oracle, model1, model2, userPrompt, s) == Went(Duel(s.first, s.second, s.round + 1));
      SilentReviewsKeepAnswers(oracle, model1, model2, userPrompt, maxRounds, Duel(s.first, s.second, s.round + 1));
    }
  }

  /** A reply saying both "yes" and "no" (as in "I know, yes") ends Code/main2_round.py's
      debate when both agents give it, while in Code/main.py it makes both revise. */
  lemma MixedRepliesDiffer(oracle: Oracle, agents: seq<Agent>, userPrompt: string, s: Exchange, model1: Agent, model2: Agent)
    requires |agents| >= PairAgentsNo && |s.responses| == PairAgentsNo
    requires forall c: Call :: c.Review? ==> Contains(Lower(oracle.ask(c)), "yes") && Contains(Lower(oracle.ask(c)), "no")
    ensures MainRound(oracle, agents, userPrompt, s).Continue?
    ensures DuelRound(oracle, model1, model2, userPrompt, Duel(s.responses[0], s.responses[1], s.round)).Agreed?
  {
    var feedback := Reviews(oracle, s.round, agents, userPrompt, s.responses);
    assert Improvable(feedback[0]);
    assert 0 in ImprovableIndices(feedback, PairAgentsNo);
  }

  // ------------------------------------------------------------ the callers' test

  /** `"-1" in str(simulate_round(...))`: the callers of Code/main.py:132 and
      Code/main_test_inputs.py:212 report a failed debate on this test. */
  predicate ReportsFailure(v: Value)
  {
    Contains(PyStr(v), "-1")
  }

  /** The -1 of an exhausted debate is reported as a failure, and so is an agreed
      answer whose text contains "-1" (such as code returning -1); the None of
      Code/main_test_inputs.py is not. */
  lemma FailureTest(answer: string, a: string, b: string)
    requires answer == a + "-1" + b
    ensures ReportsFailure(Int(-1))
    ensures ReportsFailure(Str(answer))
    ensures !ReportsFailure(NoneValue)
  {
    assert IntToStr(-1) == "-1";
    ContainsSelf("-1");
    ContainsPrefix("-1", b, "-1");
    ContainsSuffix(a, "-1" + b, "-1");
    assert answer == a + ("-1" + b);
    assert "None"[1..] == "one" && "one"[1..] == "ne" && "ne"[1..] == "e" && "e"[1..] == "";
    assert !Contains("", "-1");
    assert !Contains("e", "-1");
    assert "ne"[..2] == "ne" && "one"[..2] == "on" && "None"[..2] == "No";
    assert !Contains("ne", "-1");
    assert !Contains("one", "-1");
    assert !Contains("None", "-1");
  }
}
