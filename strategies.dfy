/** The debate strategies of Code/Debate_strategies.py: debate_with_self_refinement
    (lines 32-122), simulate_round_k_solutions (lines 125-221), simulate_complete_round
    (lines 343-438) and after_evaluation_debate (lines 453-523).

    Each strategy is specified by a round function (one pass of its `while` loop,
    ending in Stop or going on to the Next state) and a recursive loop function
    over those rounds; each method runs the loop on the caller's agent array and a
    local answer array and is proved to return what the loop function returns. */
module Strategies {
  import opened Py
  import opened Host
  import opened Utility
  import opened Agents
  import opened Rounds
  import opened Refinement
  import opened Voting

  /** How a debate ended. */
  datatype Ending =
    | AtAgreement     // one value was left on the ballots or among the chosen candidates
    | AtEquivalence   // the candidates were judged equivalent and one was drawn at random
    | AtFallback      // the rounds ran out and majority voting decided
    | AtError         // an exception left the debate

  /** What a debate returns or raises, the caller's agent list as the debate left
      it, the value of the round counter at the end, and how it ended. */
  datatype Finish = Finish(outcome: Outcome, agents: seq<Agent>, round: int, ending: Ending)

  /** The result of one pass through a strategy's loop. */
  datatype Step<S> = Stop(finish: Finish) | Next(state: S)

  /** Three answers and at least three agents: what every round works on. */
  predicate Seated(agents: seq<Agent>, responses: seq<string>)
  {
    |agents| >= AgentsNo && |responses| == AgentsNo
  }

  /** `solution = str()`, then `solution = response[int(var)]` for every var of the
      agreed values in turn, then `return solution`. */
  function AgreedOn(responses: seq<string>, choices: seq<string>): (o: Outcome)
    ensures o.Return? ==> o.value.Str?
    ensures |choices| == 1 ==> o == Returned(IndexByText(responses, choices[0]))
    decreases |choices|
  {
    if choices == [] then Return(Str(""))
    else
      match IndexByText(responses, choices[0])
      case Err(e) => Raise(e)
      case Ok(x) => if |choices| == 1 then Return(Str(x)) else AgreedOn(responses, choices[1..])
  }

  /** `response[vote_index]` after majority voting: the winner is an int index, the
      failure value "-1" is a str and raises TypeError. */
  ghost function Fallback(responses: seq<string>, feedback: seq<string>): Outcome
  {
    Returned(IndexByValue(responses, MajorityVote(feedback)))
  }

  /** A local list of the opening answers, which the rounds rewrite in place. */
  method ArrayOf(xs: seq<string>) returns (a: array<string>)
    ensures fresh(a) && a[..] == xs
  {
    a := new string[|xs|](i requires 0 <= i < |xs| => xs[i]);
  }

  // ------------------------------------------------------------ debate_with_self_refinement

  /** The state of debate_with_self_refinement at the top of its loop. The ballots
      of every round so far stay in `feedback`: the list is created once, before
      the loop. */
  datatype Debate = Debate(agents: seq<Agent>, responses: seq<string>, feedback: seq<string>, round: int)

  /** One round: score the answers, add one ballot per agent to the feedback, stop
      when all ballots so far name one value, else self-refine. */
  function SelfRefinementRound(oracle: Oracle, host: Host, userPrompt: string, s: Debate): (r: Step<Debate>)
    requires Seated(s.agents, s.responses)
    ensures r.Next? ==> Seated(r.state.agents, r.state.responses) && r.state.round == s.round + 1
  {
    match ScoresUpTo(host, s.responses, AgentsNo)
    case Err(e) => Stop(Finish(Raise(e), s.agents, s.round, AtError))
    case Ok(scores) =>
      var feedback := s.feedback + Ballots(oracle, s.round, s.agents, AgentsNo, userPrompt, s.responses, scores);
      if |Distinct(feedback)| == 1 then
        Stop(Finish(AgreedOn(s.responses, [feedback[0]]), s.agents, s.round, AtAgreement))
      else
        var p := RefinedUpTo(oracle, s.round, userPrompt, Panel(s.agents, s.responses), AgentsNo);
        Next(Debate(p.agents, p.responses, feedback, s.round + 1))
  }

  /** The loop from state s on; after the last round majority voting decides. */
  ghost function SelfRefinementFrom(oracle: Oracle, host: Host, userPrompt: string, maxRounds: int, s: Debate): Finish
    requires Seated(s.agents, s.responses)
    decreases maxRounds - s.round
  {
    if s.round > maxRounds then Finish(Fallback(s.responses, s.feedback), s.agents, s.round, AtFallback)
    else
      match SelfRefinementRound(oracle, host, userPrompt, s)
      case Stop(f) => f
      case Next(t) => SelfRefinementFrom(oracle, host, userPrompt, maxRounds, t)
  }

  /** debate_with_self_refinement as a whole. */
  ghost function SelfRefinementDebate(oracle: Oracle, host: Host, userPrompt: string, fewShot: string,
                                      agents: seq<Agent>, maxRounds: int): Finish
  {
    match OpeningResponses(oracle, agents, AgentsNo, fewShot, userPrompt)
    case Err(e) => Finish(Raise(e), agents, 0, AtError)
    case Ok(responses) => SelfRefinementFrom(oracle, host, userPrompt, maxRounds, Debate(agents, responses, [], 1))
  }

  /** One pass through the loop of debate_with_self_refinement. */
  method SelfRefinementStep(oracle: Oracle, host: Host, userPrompt: string, agents: array<Agent>, response: array<string>,
                            feedback: seq<string>, currentRound: int)
    returns (stop: Option<Outcome>, feedbackAfter: seq<string>)
    requires Seated(agents[..], response[..])
    modifies agents, response
    ensures match SelfRefinementRound(oracle, host, userPrompt, old(Debate(agents[..], response[..], feedback, currentRound)))
            case Stop(f) => stop == Some(f.outcome) && agents[..] == f.agents
            case Next(t) => stop.None? && t == Debate(agents[..], response[..], feedbackAfter, currentRound + 1)
  {
    var readabilityComplexity := MeasureReadability(host, response[..], AgentsNo);
    if readabilityComplexity.Err? {
      return Some(Raise(readabilityComplexity.error)), feedback;
    }
    var ballots := CollectBallots(oracle, currentRound, agents[..], AgentsNo, userPrompt, response[..], readabilityComplexity.value);
    feedbackAfter := feedback + ballots;
    if |Distinct(feedbackAfter)| == 1 {
      return Some(AgreedOn(response[..], [feedbackAfter[0]])), feedbackAfter;
    }
    var ok := DebateSelfRefinement(oracle, currentRound, agents, response, userPrompt);
    stop := None;
  }

  /** debate_with_self_refinement: the opening answers, then rounds until the
      ballots agree or max_rounds is passed, then majority voting. */
  method DebateWithSelfRefinement(oracle: Oracle, host: Host, userPrompt: string, fewShot: string,
                                  agents: array<Agent>, maxRounds: int) returns (r: Outcome)
    modifies agents
    ensures r == SelfRefinementDebate(oracle, host, userPrompt, fewShot, old(agents[..]), maxRounds).outcome
    ensures agents[..] == SelfRefinementDebate(oracle, host, userPrompt, fewShot, old(agents[..]), maxRounds).agents
  {
    var opening := Open(oracle, agents, AgentsNo, fewShot, userPrompt);
    if opening.Err? {
      return Raise(opening.error);
    }
    var response := ArrayOf(opening.value);
    var currentRound := 1;
    var feedback: seq<string> := [];
    while currentRound <= maxRounds
      invariant fresh(response)
      invariant Seated(agents[..], response[..])
      invariant SelfRefinementFrom(oracle, host, userPrompt, maxRounds, Debate(agents[..], response[..], feedback, currentRound))
             == SelfRefinementDebate(oracle, host, userPrompt, fewShot, old(agents[..]), maxRounds)
      decreases maxRounds - currentRound
    {
      var stop;
      stop, feedback := SelfRefinementStep(oracle, host, userPrompt, agents, response, feedback, currentRound);
      if stop.Some? {
        return stop.value;
      }
      currentRound := currentRound + 1;
    }
    var voteIndex := MajorityVoting(AgentsNo, feedback);
    r := Returned(IndexByValue(response[..], voteIndex));
  }

  /** Once the ballots have split they stay split: the feedback only grows. */
  lemma {:induction false} LateRoundsDisagree(oracle: Oracle, host: Host, userPrompt: string, maxRounds: int, s: Debate)
    requires Seated(s.agents, s.responses) && |Distinct(s.feedback)| >= 2
    ensures SelfRefinementFrom(oracle, host, userPrompt, maxRounds, s).ending != AtAgreement
    decreases maxRounds - s.round
  {
    if s.round <= maxRounds {
      match ScoresUpTo(host, s.responses, AgentsNo)
      case Err(_) =>
      case Ok(scores) =>
        SplitStaysSplit(s.feedback, Ballots(oracle, s.round, s.agents, AgentsNo, userPrompt, s.responses, scores));
        match SelfRefinementRound(oracle, host, userPrompt, s)
        case Stop(_) =>
        case Next(t) => LateRoundsDisagree(oracle, host, userPrompt, maxRounds, t);
    }
  }

  /** debate_with_self_refinement can only agree in round 1: its feedback list keeps
      the ballots of all rounds, so a split in round 1 is never undone and every
      later debate ends in majority voting or an exception. With max_rounds below 1
      no ballot is cast and `response["-1"]` raises TypeError. */
  lemma SelfRefinementAgreesOnlyFirst(oracle: Oracle, host: Host, userPrompt: string, fewShot: string, agents: seq<Agent>, maxRounds: int)
    ensures var f := SelfRefinementDebate(oracle, host, userPrompt, fewShot, agents, maxRounds);
            f.ending == AtAgreement ==> f.round == 1
    ensures |agents| >= AgentsNo && maxRounds < 1 ==>
              SelfRefinementDebate(oracle, host, userPrompt, fewShot, agents, maxRounds).outcome == Raise(TypeError)
  {
    match OpeningResponses(oracle, agents, AgentsNo, fewShot, userPrompt)
    case Err(_) =>
    case Ok(responses) =>
      var s := Debate(agents, responses, [], 1);
      if maxRounds < 1 {
        assert MajorityVote([]) == NoWinner by {
          assert ParsedVotes([]) == Some([]);
          forall v ensures !StrictWinner([], v) { }
        }
      } else {
        match ScoresUpTo(host, responses, AgentsNo)
        case Err(_) =>
        case Ok(scores) =>
          var feedback := [] + Ballots(oracle, 1, agents, AgentsNo, userPrompt, responses, scores);
          if |Distinct(feedback)| != 1 {
            assert feedback[0] in Distinct(feedback);
            match SelfRefinementRound(oracle, host, userPrompt, s)
            case Stop(_) =>
            case Next(t) => LateRoundsDisagree(oracle, host, userPrompt, maxRounds, t);
          }
      }
  }

  // ------------------------------------------------------------ simulate_round_k_solutions

  /** The state of simulate_round_k_solutions at the top of its loop: the feedback
      list is created afresh in every round and is unbound before the first. */
  datatype KDebate = KDebate(agents: seq<Agent>, responses: seq<string>, feedback: Option<seq<string>>, round: int)

  /** A round after its ballots are in: stop on agreement; otherwise run the
      k-solution step on the ballots (which overwrites the answers with them), stop
      when it leaves one value, and self-refine when it returns as many entries as
      there were distinct ballots. */
  function KSolutionsDecide(oracle: Oracle, host: Host, userPrompt: string, s: KDebate, scores: seq<int>, feedback: seq<string>)
    : (r: Step<KDebate>)
    requires Seated(s.agents, s.responses) && |scores| == AgentsNo && |feedback| == AgentsNo
    ensures r.Next? ==> Seated(r.state.agents, r.state.responses) && r.state.round == s.round + 2
  {
    if |Distinct(feedback)| == 1 then Stop(Finish(AgreedOn(s.responses, [feedback[0]]), s.agents, s.round, AtAgreement))
    else
      match KChoice(oracle, host, s.round, feedback, userPrompt, s.responses, scores, s.agents)
      case Err(e) => Stop(Finish(Raise(e), s.agents, s.round, AtError))
      case Ok(kResponse) =>
        var moved := Copied(feedback, s.responses, scores);
        if |kResponse| == 1 then Stop(Finish(AgreedOn(moved, kResponse), s.agents, s.round, AtAgreement))
        else if |kResponse| == |Distinct(feedback)| then
          var p := RefinedUpTo(oracle, s.round, userPrompt, Panel(s.agents, moved), AgentsNo);
          Next(KDebate(p.agents, p.responses, Some(feedback), s.round + 2))
        else Next(KDebate(s.agents, moved, Some(feedback), s.round + 2))
  }

  function KSolutionsRound(oracle: Oracle, host: Host, userPrompt: string, s: KDebate): (r: Step<KDebate>)
    requires Seated(s.agents, s.responses)
    ensures r.Next? ==> Seated(r.state.agents, r.state.responses) && r.state.round == s.round + 2
  {
    match ScoresUpTo(host, s.responses, AgentsNo)
    case Err(e) => Stop(Finish(Raise(e), s.agents, s.round, AtError))
    case Ok(scores) =>
      KSolutionsDecide(oracle, host, userPrompt, s, scores, Ballots(oracle, s.round, s.agents, AgentsNo, userPrompt, s.responses, scores))
  }

  /** The loop from state s on; the round counter advances by two. */
  ghost function KSolutionsFrom(oracle: Oracle, host: Host, userPrompt: string, maxRounds: int, s: KDebate): Finish
    requires Seated(s.agents, s.responses)
    decreases maxRounds - s.round
  {
    if s.round > maxRounds then
      match s.feedback
      case None => Finish(Raise(UnboundLocalError), s.agents, s.round, AtError)
      case Some(feedback) => Finish(Fallback(s.responses, feedback), s.agents, s.round, AtFallback)
    else
      match KSolutionsRound(oracle, host, userPrompt, s)
      case Stop(f) => f
      case Next(t) => KSolutionsFrom(oracle, host, userPrompt, maxRounds, t)
  }

  /** simulate_round_k_solutions as a whole. */
  ghost function KSolutionsDebate(oracle: Oracle, host: Host, userPrompt: string, fewShot: string,
                                  agents: seq<Agent>, maxRounds: int): Finish
  {
    match OpeningResponses(oracle, agents, AgentsNo, fewShot, userPrompt)
    case Err(e) => Finish(Raise(e), agents, 0, AtError)
    case Ok(responses) => KSolutionsFrom(oracle, host, userPrompt, maxRounds, KDebate(agents, responses, None, 1))
  }

  /** One pass through the loop of simulate_round_k_solutions. */
  method KSolutionsStep(oracle: Oracle, host: Host, userPrompt: string, agents: array<Agent>, response: array<string>,
                        previous: Option<seq<string>>, round: int)
    returns (stop: Option<Outcome>, feedback: seq<string>)
    requires Seated(agents[..], response[..])
    modifies agents, response
    ensures match KSolutionsRound(oracle, host, userPrompt, old(KDebate(agents[..], response[..], previous, round)))
            case Stop(f) => stop == Some(f.outcome) && agents[..] == f.agents
            case Next(t) => stop.None? && t == KDebate(agents[..], response[..], Some(feedback), round + 2)
  {
    var readabilityComplexity := MeasureReadability(host, response[..], AgentsNo);
    if readabilityComplexity.Err? {
      return Some(Raise(readabilityComplexity.error)), [];
    }
    var scores := readabilityComplexity.value;
    feedback := CollectBallots(oracle, round, agents[..], AgentsNo, userPrompt, response[..], scores);
    if |Distinct(feedback)| == 1 {
      return Some(AgreedOn(response[..], [feedback[0]])), feedback;
    }
    var kResponse := DebateOnKSolutions(oracle, host, round, feedback, userPrompt, response, scores, agents[..]);
    if kResponse.Err? {
      return Some(Raise(kResponse.error)), feedback;
    }
    var chosen := kResponse.value;
    var moved := response[..];
    if |chosen| == 1 {
      return Some(AgreedOn(moved, chosen)), feedback;
    }
    if |chosen| == |Distinct(feedback)| {
      var ok := DebateSelfRefinement(oracle, round, agents, response, userPrompt);
    }
    stop := None;
  }

  /** simulate_round_k_solutions: rounds 1, 3, 5, ... while the counter is at most
      max_rounds, then majority voting on the last round's ballots. */
  method SimulateRoundKSolutions(oracle: Oracle, host: Host, userPrompt: string, fewShot: string,
                                 agents: array<Agent>, maxRounds: int) returns (r: Outcome)
    modifies agents
    ensures r == KSolutionsDebate(oracle, host, userPrompt, fewShot, old(agents[..]), maxRounds).outcome
    ensures agents[..] == KSolutionsDebate(oracle, host, userPrompt, fewShot, old(agents[..]), maxRounds).agents
  {
    var opening := Open(oracle, agents, AgentsNo, fewShot, userPrompt);
    if opening.Err? {
      return Raise(opening.error);
    }
    var response := ArrayOf(opening.value);
    var round := 1;
    var feedback: Option<seq<string>> := None;
    while round <= maxRounds
      invariant fresh(response)
      invariant Seated(agents[..], response[..])
      invariant KSolutionsFrom(oracle, host, userPrompt, maxRounds, KDebate(agents[..], response[..], feedback, round))
             == KSolutionsDebate(oracle, host, userPrompt, fewShot, old(agents[..]), maxRounds)
      decreases maxRounds - round
    {
      var stop, ballots := KSolutionsStep(oracle, host, userPrompt, agents, response, feedback, round);
      if stop.Some? {
        return stop.value;
      }
      feedback := Some(ballots);
      round := round + 2;
    }
    if feedback.None? {
      return Raise(UnboundLocalError);
    }
    var voteIndex := MajorityVoting(AgentsNo, feedback.value);
    r := Returned(IndexByValue(response[..], voteIndex));
  }

  /** What follows a split vote in simulate_round_k_solutions: the k-solution step
      either raises or returns one entry per agent, after which self-refinement
      always runs, on the ballots that overwrote the answers; the agreement on a
      single remaining candidate is never reached. Only three different ballots get
      through the step: a two-way split always raises. */
  lemma KSolutionsAfterSplit(oracle: Oracle, host: Host, userPrompt: string, s: KDebate, scores: seq<int>, feedback: seq<string>)
    requires Seated(s.agents, s.responses) && |scores| == AgentsNo && |feedback| == AgentsNo
    requires |Distinct(feedback)| != 1
    ensures var r := KSolutionsDecide(oracle, host, userPrompt, s, scores, feedback);
            && (r.Stop? ==> r.finish.outcome.Raise? && r.finish.ending == AtError)
            && (r.Next? ==> && |Distinct(feedback)| == AgentsNo
                            && r.state.responses == RefinedUpTo(oracle, s.round, userPrompt, Panel(s.agents, feedback), AgentsNo).responses
                            && r.state.agents == RefinedUpTo(oracle, s.round, userPrompt, Panel(s.agents, feedback), AgentsNo).agents)
            && (|Distinct(feedback)| == 2 ==> r.Stop?)
  {
    KChoiceShape(oracle, host, s.round, feedback, userPrompt, s.responses, scores, s.agents);
    assert feedback[..AgentsNo] == feedback;
    var k := KChoice(oracle, host, s.round, feedback, userPrompt, s.responses, scores, s.agents);
    if k.Ok? {
      assert Copied(feedback, s.responses, scores) == feedback;
    }
  }

  /** With max_rounds below 1 the loop never runs and majority voting reads the
      unbound feedback: UnboundLocalError. */
  lemma KSolutionsWithoutRounds(oracle: Oracle, host: Host, userPrompt: string, fewShot: string, agents: seq<Agent>, maxRounds: int)
    requires |agents| >= AgentsNo && maxRounds < 1
    ensures KSolutionsDebate(oracle, host, userPrompt, fewShot, agents, maxRounds).outcome == Raise(UnboundLocalError)
  {
  }

  // ------------------------------------------------------------ simulate_complete_round

  /** The state of simulate_complete_round at the top of its loop, with the count of
      rounds without agreement. */
  datatype CDebate = CDebate(agents: seq<Agent>, responses: seq<string>, feedback: Option<seq<string>>, round: int, streak: int)

  /** `equals_time_complexity(k_responses) and equals_cognitive_complexity(readability_complexity)`:
      the second test is only made when the first holds, and it is given the list of
      scores. */
  function Equivalent(host: Host, kResponses: seq<string>, scores: seq<int>): Result<bool>
  {
    match EqualsTimeComplexity(host, kResponses)
    case Err(e) => Err(e)
    case Ok(sameTime) => if sameTime then EqualsCognitiveComplexity(ScoreList(scores)) else Ok(false)
  }

  /** str(get_random_element(k_responses)). */
  function RandomPick(kResponses: seq<string>, pick: nat): string
  {
    match GetRandomElement(kResponses, pick)
    case None => "None"
    case Some(x) => x
  }

  /** The k-solution step that closes every round of simulate_complete_round, on
      the candidates of the round (none before two rounds without agreement). */
  function CompleteChoice(oracle: Oracle, host: Host, userPrompt: string, round: int, scores: seq<int>, feedback: seq<string>,
                          kCandidates: seq<string>, p: Panel, streak: int): (r: Step<CDebate>)
    requires Seated(p.agents, p.responses)
    ensures r.Next? ==> Seated(r.state.agents, r.state.responses) && r.state.round == round + 1
  {
    match KChoice(oracle, host, round, kCandidates, userPrompt, p.responses, scores, p.agents)
    case Err(e) => Stop(Finish(Raise(e), p.agents, round, AtError))
    case Ok(kResponse) =>
      var moved := Copied(kCandidates, p.responses, scores);
      if |kResponse| == 1 then Stop(Finish(AgreedOn(moved, kResponse), p.agents, round, AtAgreement))
      else Next(CDebate(p.agents, moved, Some(feedback), round + 1, streak + 1))
  }

  /** A round of simulate_complete_round after its ballots are in. */
  function CompleteDecide(oracle: Oracle, host: Host, userPrompt: string, s: CDebate, scores: seq<int>, feedback: seq<string>)
    : (r: Step<CDebate>)
    requires Seated(s.agents, s.responses) && |feedback| == AgentsNo
    ensures r.Next? ==> Seated(r.state.agents, r.state.responses) && r.state.round == s.round + 1
  {
    if |Distinct(feedback)| == 1 then Stop(Finish(AgreedOn(s.responses, [feedback[0]]), s.agents, s.round, AtAgreement))
    else
      var streak := s.streak + 1;
      if streak >= 2 then
        match KResponses(s.responses, feedback)
        case Err(e) => Stop(Finish(Raise(e), s.agents, s.round, AtError))
        case Ok(kResponses) =>
          match Equivalent(host, kResponses, scores)
          case Err(e) => Stop(Finish(Raise(e), s.agents, s.round, AtError))
          case Ok(equivalent) =>
            if equivalent then
              Stop(Finish(Return(Str(RandomPick(kResponses, oracle.pick(s.round)))), s.agents, s.round, AtEquivalence))
            else
              var p := RefinedUpTo(oracle, s.round, userPrompt, Panel(s.agents, s.responses), AgentsNo);
              CompleteChoice(oracle, host, userPrompt, s.round, scores, feedback, kResponses, p, 0)
      else CompleteChoice(oracle, host, userPrompt, s.round, scores, feedback, [], Panel(s.agents, s.responses), streak)
  }

  function CompleteRound(oracle: Oracle, host: Host, userPrompt: string, s: CDebate): (r: Step<CDebate>)
    requires Seated(s.agents, s.responses)
    ensures r.Next? ==> Seated(r.state.agents, r.state.responses) && r.state.round == s.round + 1
  {
    match ScoresUpTo(host, s.responses, AgentsNo)
    case Err(e) => Stop(Finish(Raise(e), s.agents, s.round, AtError))
    case Ok(scores) =>
      CompleteDecide(oracle, host, userPrompt, s, scores, Ballots(oracle, s.round, s.agents, AgentsNo, userPrompt, s.responses, scores))
  }

  ghost function CompleteFrom(oracle: Oracle, host: Host, userPrompt: string, maxRounds: int, s: CDebate): Finish
    requires Seated(s.agents, s.responses)
    decreases maxRounds - s.round
  {
    if s.round > maxRounds then
      match s.feedback
      case None => Finish(Raise(UnboundLocalError), s.agents, s.round, AtError)
      case Some(feedback) => Finish(Fallback(s.responses, feedback), s.agents, s.round, AtFallback)
    else
      match CompleteRound(oracle, host, userPrompt, s)
      case Stop(f) => f
      case Next(t) => CompleteFrom(oracle, host, userPrompt, maxRounds, t)
  }

  /** simulate_complete_round as a whole. */
  ghost function CompleteRoundDebate(oracle: Oracle, host: Host, userPrompt: string, fewShot: string,
                                     agents: seq<Agent>, maxRounds: int): Finish
  {
    match OpeningResponses(oracle, agents, AgentsNo, fewShot, userPrompt)
    case Err(e) => Finish(Raise(e), agents, 0, AtError)
    case Ok(responses) => CompleteFrom(oracle, host, userPrompt, maxRounds, CDebate(agents, responses, None, 1, 0))
  }

  /** The k-solution step at the end of a round of simulate_complete_round. */
  method CompleteChoiceStep(oracle: Oracle, host: Host, userPrompt: string, agents: array<Agent>, response: array<string>,
                            round: int, scores: seq<int>, feedback: seq<string>, kResponses: seq<string>, streak: int)
    returns (stop: Option<Outcome>, streakAfter: int)
    requires Seated(agents[..], response[..])
    modifies response
    ensures match CompleteChoice(oracle, host, userPrompt, round, scores, feedback, kResponses, old(Panel(agents[..], response[..])), streak)
            case Stop(f) => stop == Some(f.outcome) && agents[..] == f.agents
            case Next(t) => stop.None? && t == CDebate(agents[..], response[..], Some(feedback), round + 1, streakAfter)
  {
    var kResponse := DebateOnKSolutions(oracle, host, round, kResponses, userPrompt, response, scores, agents[..]);
    if kResponse.Err? {
      return Some(Raise(kResponse.error)), streak;
    }
    var chosen := kResponse.value;
    var moved := response[..];
    if |chosen| == 1 {
      return Some(AgreedOn(moved, chosen)), streak;
    }
    return None, streak + 1;
  }

  /** A round of simulate_complete_round after its ballots are in. */
  method CompleteDecideStep(oracle: Oracle, host: Host, userPrompt: string, agents: array<Agent>, response: array<string>,
                            round: int, notAgreementRounds: int, scores: seq<int>, feedback: seq<string>)
    returns (stop: Option<Outcome>, streak: int)
    requires Seated(agents[..], response[..]) && |feedback| == AgentsNo
    modifies agents, response
    ensures match CompleteDecide(oracle, host, userPrompt, old(CDebate(agents[..], response[..], None, round, notAgreementRounds)), scores, feedback)
            case Stop(f) => stop == Some(f.outcome) && agents[..] == f.agents
            case Next(t) => stop.None? && t == CDebate(agents[..], response[..], Some(feedback), round + 1, streak)
  {
    if |Distinct(feedback)| == 1 {
      return Some(AgreedOn(response[..], [feedback[0]])), notAgreementRounds;
    }
    streak := notAgreementRounds + 1;
    var kResponses: seq<string> := [];
    if streak >= 2 {
      var picked := GetKResponses(response[..], feedback);
      if picked.Err? {
        return Some(Raise(picked.error)), streak;
      }
      kResponses := picked.value;
      var equivalent := Equivalent(host, kResponses, scores);
      if equivalent.Err? {
        return Some(Raise(equivalent.error)), streak;
      }
      if equivalent.value {
        return Some(Return(Str(RandomPick(kResponses, oracle.pick(round))))), streak;
      }
      var ok := DebateSelfRefinement(oracle, round, agents, response, userPrompt);
      streak := 0;
    }
    stop, streak := CompleteChoiceStep(oracle, host, userPrompt, agents, response, round, scores, feedback, kResponses, streak);
  }

  /** One pass through the loop of simulate_complete_round. */
  method CompleteStep(oracle: Oracle, host: Host, userPrompt: string, agents: array<Agent>, response: array<string>,
                      previous: Option<seq<string>>, round: int, notAgreementRounds: int)
    returns (stop: Option<Outcome>, feedback: seq<string>, streak: int)
    requires Seated(agents[..], response[..])
    modifies agents, response
    ensures match CompleteRound(oracle, host, userPrompt, old(CDebate(agents[..], response[..], previous, round, notAgreementRounds)))
            case Stop(f) => stop == Some(f.outcome) && agents[..] == f.agents
            case Next(t) => stop.None? && t == CDebate(agents[..], response[..], Some(feedback), round + 1, streak)
  {
    var readabilityComplexity := MeasureReadability(host, response[..], AgentsNo);
    if readabilityComplexity.Err? {
      return Some(Raise(readabilityComplexity.error)), [], notAgreementRounds;
    }
    var scores := readabilityComplexity.value;
    feedback := CollectBallots(oracle, round, agents[..], AgentsNo, userPrompt, response[..], scores);
    ghost var s := CDebate(agents[..], response[..], previous, round, notAgreementRounds);
    assert CompleteRound(oracle, host, userPrompt, s) == CompleteDecide(oracle, host, userPrompt, s.(feedback := None), scores, feedback);
    stop, streak := CompleteDecideStep(oracle, host, userPrompt, agents, response, round, notAgreementRounds, scores, feedback);
  }

  /** simulate_complete_round: rounds while the counter is at most max_rounds,
      then majority voting on the last round's ballots. */
  method SimulateCompleteRound(oracle: Oracle, host: Host, userPrompt: string, fewShot: string,
                               agents: array<Agent>, maxRounds: int) returns (r: Outcome)
    modifies agents
    ensures r == CompleteRoundDebate(oracle, host, userPrompt, fewShot, old(agents[..]), maxRounds).outcome
    ensures agents[..] == CompleteRoundDebate(oracle, host, userPrompt, fewShot, old(agents[..]), maxRounds).agents
  {
    var opening := Open(oracle, agents, AgentsNo, fewShot, userPrompt);
    if opening.Err? {
      return Raise(opening.error);
    }
    var response := ArrayOf(opening.value);
    var round := 1;
    var notAgreementRounds := 0;
    var feedback: Option<seq<string>> := None;
    while round <= maxRounds
      invariant fresh(response)
      invariant Seated(agents[..], response[..])
      invariant CompleteFrom(oracle, host, userPrompt, maxRounds, CDebate(agents[..], response[..], feedback, round, notAgreementRounds))
             == CompleteRoundDebate(oracle, host, userPrompt, fewShot, old(agents[..]), maxRounds)
      decreases maxRounds - round
    {
      var stop, ballots;
      stop, ballots, notAgreementRounds := CompleteStep(oracle, host, userPrompt, agents, response, feedback, round, notAgreementRounds);
      if stop.Some? {
        return stop.value;
      }
      feedback := Some(ballots);
      round := round + 1;
    }
    if feedback.None? {
      return Raise(UnboundLocalError);
    }
    var voteIndex := MajorityVoting(AgentsNo, feedback.value);
    r := Returned(IndexByValue(response[..], voteIndex));
  }

  /** In a round with fewer than one earlier round without agreement, a split vote
      leaves the k-solution step no candidates, and it raises IndexError. */
  lemma CompleteFirstSplit(oracle: Oracle, host: Host, userPrompt: string, s: CDebate, scores: seq<int>, feedback: seq<string>)
    requires Seated(s.agents, s.responses) && |feedback| == AgentsNo && s.streak < 1
    ensures CompleteDecide(oracle, host, userPrompt, s, scores, feedback).Stop?
    ensures |Distinct(feedback)| != 1 ==>
              CompleteDecide(oracle, host, userPrompt, s, scores, feedback) == Stop(Finish(Raise(IndexError), s.agents, s.round, AtError))
  {
    KChoiceShape(oracle, host, s.round, [], userPrompt, s.responses, scores, s.agents);
  }

  /** Wherever the equivalence test is reached with equal time complexities, the
      readability test is handed the score list, which has no .values(): the
      random draw among equivalent solutions can never happen. */
  lemma EquivalenceRaises(oracle: Oracle, host: Host, userPrompt: string, s: CDebate, scores: seq<int>, feedback: seq<string>,
                          kResponses: seq<string>)
    requires Seated(s.agents, s.responses) && |feedback| == AgentsNo && |Distinct(feedback)| != 1 && s.streak >= 1
    requires KResponses(s.responses, feedback) == Ok(kResponses) && EqualsTimeComplexity(host, kResponses) == Ok(true)
    ensures CompleteDecide(oracle, host, userPrompt, s, scores, feedback) == Stop(Finish(Raise(AttributeError), s.agents, s.round, AtError))
  {
  }

  /** simulate_complete_round never passes round 1: the first round either agrees,
      raises, or splits and then raises IndexError; it never draws among equivalent
      solutions nor reaches majority voting, except that with max_rounds below 1
      the unbound feedback raises UnboundLocalError. */
  lemma CompleteRoundEndsInRoundOne(oracle: Oracle, host: Host, userPrompt: string, fewShot: string, agents: seq<Agent>, maxRounds: int)
    ensures var f := CompleteRoundDebate(oracle, host, userPrompt, fewShot, agents, maxRounds);
            && f.round <= 1
            && f.ending != AtEquivalence
            && (maxRounds >= 1 ==> f.ending != AtFallback)
    ensures |agents| >= AgentsNo && maxRounds < 1 ==>
              CompleteRoundDebate(oracle, host, userPrompt, fewShot, agents, maxRounds).outcome == Raise(UnboundLocalError)
  {
    match OpeningResponses(oracle, agents, AgentsNo, fewShot, userPrompt)
    case Err(_) =>
    case Ok(responses) =>
      var s := CDebate(agents, responses, None, 1, 0);
      if maxRounds >= 1 {
        match ScoresUpTo(host, responses, AgentsNo)
        case Err(_) =>
        case Ok(scores) =>
          CompleteFirstSplit(oracle, host, userPrompt, s, scores, Ballots(oracle, 1, agents, AgentsNo, userPrompt, responses, scores));
      }
  }

  // ------------------------------------------------------------ after_evaluation_debate

  /* The refinement instruction template, abbreviated to its headings: the
     instructions are left out, while the three placeholders and the opening brace
     of the JSON schema stay in their order. */
  const InstructionHeading: string := "# Instruction\n"
  const UserPromptHeading: string := "#User prompt\n"
  const CodeHeading: string := "\n# Previous source code\n"
  const FeedbackHeading: string := "\n# Evaluation Feedback\n"
  const GuidelinesHeading: string := "\n# Refinement Guidelines\n"
  const FormatHeading: string := "\n# Output Format\n"
  const PromptSchema: string := "{\"type\": \"object\"}"

  const UserPromptField: string := "{user_prompt}"
  const PreviousCodeField: string := "{previous_code}"
  const FeedbackField: string := "{evaluation_feedback}"

  /** The template from the feedback placeholder's place on, with `fb` there. */
  function PromptFrom(fb: string): string
  {
    FeedbackHeading + (fb + (GuidelinesHeading + (FormatHeading + PromptSchema)))
  }

  /** The template with `up`, `code` and `fb` in the places of its placeholders. */
  function Filled(up: string, code: string, fb: string): string
  {
    InstructionHeading + (UserPromptHeading + (up + (CodeHeading + (code + PromptFrom(fb)))))
  }

  const RefinementInstructionPrompt: string := Filled(UserPromptField, PreviousCodeField, FeedbackField)

  /** The prompt after_evaluation_debate debates on. Each of its three replace calls
      starts again from the template, so only the last, the evaluator's feedback,
      survives. */
  function RefinementPrompt(userPrompt: string, previousCode: string, feedbackEvaluator: string): string
  {
    Replace(RefinementInstructionPrompt, FeedbackField, feedbackEvaluator)
  }

  /** The prompt is the template with the feedback in its place: the user prompt
      and the previous code never reach it, their placeholders stay. */
  lemma RefinementPromptShape(userPrompt: string, previousCode: string, feedbackEvaluator: string)
    ensures RefinementPrompt(userPrompt, previousCode, feedbackEvaluator) == Filled(UserPromptField, PreviousCodeField, feedbackEvaluator)
  {
    var fb := feedbackEvaluator;
    var tail := GuidelinesHeading + (FormatHeading + PromptSchema);
    TailUnchanged(fb);
    assert Replace(FeedbackField + tail, FeedbackField, fb) == fb + tail by { ReplaceFront(tail, FeedbackField, fb); }
    SkipHeading(FeedbackHeading, FeedbackField + tail, fb);
    SkipField(PreviousCodeField, PromptFrom(FeedbackField), fb);
    SkipHeading(CodeHeading, PreviousCodeField + PromptFrom(FeedbackField), fb);
    SkipField(UserPromptField, CodeHeading + (PreviousCodeField + PromptFrom(FeedbackField)), fb);
    SkipHeading(UserPromptHeading, UserPromptField + (CodeHeading + (PreviousCodeField + PromptFrom(FeedbackField))), fb);
    SkipHeading(InstructionHeading, UserPromptHeading + (UserPromptField + (CodeHeading + (PreviousCodeField + PromptFrom(FeedbackField)))), fb);
  }

  /** The part after the feedback placeholder holds no occurrence of it. */
  lemma TailUnchanged(fb: string)
    ensures Replace(GuidelinesHeading + (FormatHeading + PromptSchema), FeedbackField, fb) == GuidelinesHeading + (FormatHeading + PromptSchema)
  {
    assert Replace(PromptSchema, FeedbackField, fb) == PromptSchema by {
      ReplaceNearMiss(PromptSchema, [], FeedbackField, fb);
      assert PromptSchema + [] == PromptSchema;
    }
    SkipHeading(FormatHeading, PromptSchema, fb);
    SkipHeading(GuidelinesHeading, FormatHeading + PromptSchema, fb);
  }

  /** The headings hold no brace. */
  lemma SkipHeading(h: string, b: string, fb: string)
    requires h in {InstructionHeading, UserPromptHeading, CodeHeading, FeedbackHeading, GuidelinesHeading, FormatHeading}
    ensures Replace(h + b, FeedbackField, fb) == h + Replace(b, FeedbackField, fb)
  {
    if h == InstructionHeading {
      ReplaceSkips(InstructionHeading, b, FeedbackField, fb);
    } else if h == UserPromptHeading {
      ReplaceSkips(UserPromptHeading, b, FeedbackField, fb);
    } else if h == CodeHeading {
      ReplaceSkips(CodeHeading, b, FeedbackField, fb);
    } else if h == FeedbackHeading {
      ReplaceSkips(FeedbackHeading, b, FeedbackField, fb);
    } else if h == GuidelinesHeading {
      ReplaceSkips(GuidelinesHeading, b, FeedbackField, fb);
    } else {
      ReplaceSkips(FormatHeading, b, FeedbackField, fb);
    }
  }

  /** The other two placeholders differ from the feedback one at their second character. */
  lemma SkipField(f: string, b: string, fb: string)
    requires f == UserPromptField || f == PreviousCodeField
    ensures Replace(f + b, FeedbackField, fb) == f + Replace(b, FeedbackField, fb)
  {
    if f == UserPromptField {
      ReplaceNearMiss(UserPromptField, b, FeedbackField, fb);
    } else {
      ReplaceNearMiss(PreviousCodeField, b, FeedbackField, fb);
    }
  }

  /** `m in a + (m + b)`. */
  lemma ContainsAfter(a: string, m: string, b: string)
    ensures Contains(a + (m + b), m)
  {
    ContainsSelf(m);
    ContainsPrefix(m, b, m);
    ContainsSuffix(a, m + b, m);
  }

  /** The placeholders of the user prompt and of the previous code stay in the
      prompt the agents receive, next to the evaluator's feedback. */
  lemma RefinementPromptKeepsPlaceholders(userPrompt: string, previousCode: string, feedbackEvaluator: string)
    ensures Contains(RefinementPrompt(userPrompt, previousCode, feedbackEvaluator), UserPromptField)
    ensures Contains(RefinementPrompt(userPrompt, previousCode, feedbackEvaluator), PreviousCodeField)
    ensures Contains(RefinementPrompt(userPrompt, previousCode, feedbackEvaluator), feedbackEvaluator)
  {
    RefinementPromptShape(userPrompt, previousCode, feedbackEvaluator);
    var fb := feedbackEvaluator;
    var tail := GuidelinesHeading + (FormatHeading + PromptSchema);
    var afterCode := PromptFrom(fb);
    var afterUser := CodeHeading + (PreviousCodeField + afterCode);
    ContainsAfter(UserPromptHeading, UserPromptField, afterUser);
    ContainsSuffix(InstructionHeading, UserPromptHeading + (UserPromptField + afterUser), UserPromptField);
    ContainsAfter(CodeHeading, PreviousCodeField, afterCode);
    ContainsSuffix(UserPromptField, afterUser, PreviousCodeField);
    ContainsSuffix(UserPromptHeading, UserPromptField + afterUser, PreviousCodeField);
    ContainsSuffix(InstructionHeading, UserPromptHeading + (UserPromptField + afterUser), PreviousCodeField);
    ContainsAfter(FeedbackHeading, fb, tail);
    ContainsSuffix(PreviousCodeField, afterCode, fb);
    ContainsSuffix(CodeHeading, PreviousCodeField + afterCode, fb);
    ContainsSuffix(UserPromptField, afterUser, fb);
    ContainsSuffix(UserPromptHeading, UserPromptField + afterUser, fb);
    ContainsSuffix(InstructionHeading, UserPromptHeading + (UserPromptField + afterUser), fb);
  }

  /** str() of what the chosen strategy returned. */
  function AsStr(o: Outcome): (r: Outcome)
    ensures r.Return? ==> r.value.Str?
  {
    match o
    case Return(v) => Return(Str(PyStr(v)))
    case Raise(e) => Raise(e)
  }

  /** after_evaluation_debate: "0" selects debate_with_self_refinement, "1"
      simulate_round_k_solutions and anything else simulate_complete_round, each
      on the refinement prompt and always with MAXROUNDS_NO rounds. */
  ghost function AfterEvaluation(oracle: Oracle, host: Host, userPrompt: string, fewShot: string, feedbackEvaluator: string,
                                 previousCode: string, agents: seq<Agent>, strategyDebate: string, maxRounds: int): Finish
  {
    var prompt := RefinementPrompt(userPrompt, previousCode, feedbackEvaluator);
    var f :=
      if strategyDebate == "0" then SelfRefinementDebate(oracle, host, prompt, fewShot, agents, MaxRoundsNo)
      else if strategyDebate == "1" then KSolutionsDebate(oracle, host, prompt, fewShot, agents, MaxRoundsNo)
      else CompleteRoundDebate(oracle, host, prompt, fewShot, agents, MaxRoundsNo);
    f.(outcome := AsStr(f.outcome))
  }

  /** after_evaluation_debate. */
  method AfterEvaluationDebate(oracle: Oracle, host: Host, userPrompt: string, fewShot: string, feedbackEvaluator: string,
                               previousCode: string, agents: array<Agent>, strategyDebate: string, maxRounds: int)
    returns (r: Outcome)
    modifies agents
    ensures r == AfterEvaluation(oracle, host, userPrompt, fewShot, feedbackEvaluator, previousCode, old(agents[..]), strategyDebate, maxRounds).outcome
    ensures agents[..] == AfterEvaluation(oracle, host, userPrompt, fewShot, feedbackEvaluator, previousCode, old(agents[..]), strategyDebate, maxRounds).agents
  {
    var refinementPrompt := Replace(RefinementInstructionPrompt, UserPromptField, userPrompt);
    refinementPrompt := Replace(RefinementInstructionPrompt, PreviousCodeField, previousCode);
    refinementPrompt := Replace(RefinementInstructionPrompt, FeedbackField, feedbackEvaluator);
    var debateResponse: Outcome;
    if strategyDebate == "0" {
      debateResponse := DebateWithSelfRefinement(oracle, host, refinementPrompt, fewShot, agents, MaxRoundsNo);
    } else if strategyDebate == "1" {
      debateResponse := SimulateRoundKSolutions(oracle, host, refinementPrompt, fewShot, agents, MaxRoundsNo);
    } else {
      debateResponse := SimulateCompleteRound(oracle, host, refinementPrompt, fewShot, agents, MaxRoundsNo);
    }
    r := AsStr(debateResponse);
  }

  /** after_evaluation_debate ignores its max_rounds argument, and what it returns
      is a str. Under strategy "2" (or any other) it never gets past round 1. */
  lemma AfterEvaluationFacts(oracle: Oracle, host: Host, userPrompt: string, fewShot: string, feedbackEvaluator: string,
                             previousCode: string, agents: seq<Agent>, strategyDebate: string, m: int, n: int)
    ensures AfterEvaluation(oracle, host, userPrompt, fewShot, feedbackEvaluator, previousCode, agents, strategyDebate, m)
         == AfterEvaluation(oracle, host, userPrompt, fewShot, feedbackEvaluator, previousCode, agents, strategyDebate, n)
    ensures var f := AfterEvaluation(oracle, host, userPrompt, fewShot, feedbackEvaluator, previousCode, agents, strategyDebate, m);
            (f.outcome.Return? ==> f.outcome.value.Str?)
            && (strategyDebate != "0" && strategyDebate != "1" ==> f.round <= 1 && f.ending != AtFallback)
  {
    var prompt := RefinementPrompt(userPrompt, previousCode, feedbackEvaluator);
    CompleteRoundEndsInRoundOne(oracle, host, prompt, fewShot, agents, MaxRoundsNo);
  }
}
