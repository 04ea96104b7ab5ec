/** The two ways Code/Debate_strategies.py changes the answers between rounds:
    debate_self_refinement (lines 227-254), which rewrites the answer list and the
    agent list in place slot by slot, and debate_on_k_solutions (lines 258-288),
    which copies the k candidates over the caller's answers and lets every agent
    choose among their deduplicated list. */
module Refinement {
  import opened Py
  import opened Host
  import opened Metrics
  import opened Utility
  import opened Agents
  import opened Rounds

  /** The agents of a debate with their current answers. */
  datatype Panel = Panel(agents: seq<Agent>, responses: seq<string>)

  // ------------------------------------------------------------ debate_self_refinement

  /** The call that rewrites slot i: a revision of a non-empty answer in view of all
      the other answers, or a fresh answer (no few-shot prompt) from a re-cloned
      agent when the answer is empty. */
  function SlotCall(round: int, userPrompt: string, p: Panel, i: nat): Call
    requires i < |p.agents| && i < |p.responses|
  {
    if p.responses[i] != "" then Revise(round, i, p.agents[i], userPrompt, p.responses[i], Without(p.responses, i))
    else First(round, i, CloneOf(p.agents[i]), "", userPrompt)
  }

  /** The panel after slot i has been rewritten. */
  function RefineSlot(oracle: Oracle, round: int, userPrompt: string, p: Panel, i: nat): (q: Panel)
    requires i < |p.agents| && i < |p.responses|
    ensures |q.agents| == |p.agents| && |q.responses| == |p.responses|
  {
    var answer := oracle.ask(SlotCall(round, userPrompt, p, i));
    if p.responses[i] != "" then Panel(p.agents, p.responses[i := answer])
    else Panel(p.agents[i := CloneOf(p.agents[i])], p.responses[i := answer])
  }

  /** The panel after slots 0 .. n-1 have been rewritten, in that order. */
  function RefinedUpTo(oracle: Oracle, round: int, userPrompt: string, p: Panel, n: nat): (q: Panel)
    requires n <= |p.agents| && n <= |p.responses|
    ensures |q.agents| == |p.agents| && |q.responses| == |p.responses|
    decreases n
  {
    if n == 0 then p else RefineSlot(oracle, round, userPrompt, RefinedUpTo(oracle, round, userPrompt, p, n - 1), n - 1)
  }

  /** How many slots the loop reaches: AGENTS_NO, or fewer when a list is shorter. */
  function SlotsReached(p: Panel): (n: nat)
    ensures n <= AgentsNo && n <= |p.agents| && n <= |p.responses|
    ensures n == AgentsNo <==> |p.agents| >= AgentsNo && |p.responses| >= AgentsNo
  {
    if |p.agents| < AgentsNo || |p.responses| < AgentsNo then
      (if |p.agents| < |p.responses| then |p.agents| else |p.responses|)
    else AgentsNo
  }

  /** debate_self_refinement: slot by slot, revise a non-empty answer or regenerate
      an empty one with a re-cloned agent. A list shorter than AGENTS_NO stops the
      loop with IndexError (`ok` false) after the slots before it. The caller's
      lists are the ones rewritten; `round` only names the calls. */
  method DebateSelfRefinement(oracle: Oracle, round: int, agents: array<Agent>, responses: array<string>, userPrompt: string)
    returns (ok: bool)
    modifies agents, responses
    ensures ok <==> agents.Length >= AgentsNo && responses.Length >= AgentsNo
    ensures Panel(agents[..], responses[..]) ==
            RefinedUpTo(oracle, round, userPrompt, old(Panel(agents[..], responses[..])), SlotsReached(old(Panel(agents[..], responses[..]))))
  {
    ghost var p0 := Panel(agents[..], responses[..]);
    for i := 0 to AgentsNo
      invariant i <= agents.Length && i <= responses.Length
      invariant Panel(agents[..], responses[..]) == RefinedUpTo(oracle, round, userPrompt, p0, i)
    {
      if i >= responses.Length || i >= agents.Length {
        return false;
      }
      ghost var before := Panel(agents[..], responses[..]);
      var otherResponses := Without(responses[..], i);
      if responses[i] != "" {
        responses[i] := oracle.ask(Revise(round, i, agents[i], userPrompt, responses[i], otherResponses));
      } else {
        agents[i] := CloneOf(agents[i]);
        responses[i] := oracle.ask(First(round, i, agents[i], "", userPrompt));
      }
      assert Panel(agents[..], responses[..]) == RefineSlot(oracle, round, userPrompt, before, i);
    }
    return true;
  }

  /** Slots from k on are as they came in until step k. */
  lemma {:induction false} Untouched(oracle: Oracle, round: int, userPrompt: string, p: Panel, k: nat)
    requires k <= |p.agents| && k <= |p.responses|
    ensures RefinedUpTo(oracle, round, userPrompt, p, k).responses[k..] == p.responses[k..]
    ensures RefinedUpTo(oracle, round, userPrompt, p, k).agents[k..] == p.agents[k..]
    decreases k
  {
    if k > 0 {
      Untouched(oracle, round, userPrompt, p, k - 1);
      var q := RefinedUpTo(oracle, round, userPrompt, p, k - 1);
      var r := RefineSlot(oracle, round, userPrompt, q, k - 1);
      assert r.responses[k..] == q.responses[k..];
      assert r.agents[k..] == q.agents[k..];
    }
  }

  /** Slots before k keep, through the later steps, the value step k left them. */
  lemma {:induction false} Settled(oracle: Oracle, round: int, userPrompt: string, p: Panel, k: nat, n: nat)
    requires k <= n <= |p.agents| && n <= |p.responses|
    ensures RefinedUpTo(oracle, round, userPrompt, p, n).responses[..k] == RefinedUpTo(oracle, round, userPrompt, p, k).responses[..k]
    ensures RefinedUpTo(oracle, round, userPrompt, p, n).agents[..k] == RefinedUpTo(oracle, round, userPrompt, p, k).agents[..k]
    decreases n - k
  {
    if k < n {
      Settled(oracle, round, userPrompt, p, k, n - 1);
      var q := RefinedUpTo(oracle, round, userPrompt, p, n - 1);
      var r := RefineSlot(oracle, round, userPrompt, q, n - 1);
      assert r.responses[..k] == q.responses[..k];
      assert r.agents[..k] == q.agents[..k];
    }
  }

  /** Step k itself: slot k holds its incoming value until then, and step k sets it. */
  lemma StepAt(oracle: Oracle, round: int, userPrompt: string, p: Panel, k: nat)
    requires k < |p.agents| && k < |p.responses|
    ensures RefinedUpTo(oracle, round, userPrompt, p, k).responses[k] == p.responses[k]
    ensures RefinedUpTo(oracle, round, userPrompt, p, k).agents[k] == p.agents[k]
    ensures RefinedUpTo(oracle, round, userPrompt, p, k + 1).responses[k] ==
            oracle.ask(SlotCall(round, userPrompt, RefinedUpTo(oracle, round, userPrompt, p, k), k))
    ensures RefinedUpTo(oracle, round, userPrompt, p, k + 1).agents[k] ==
            (if p.responses[k] != "" then p.agents[k] else CloneOf(p.agents[k]))
  {
    var before := RefinedUpTo(oracle, round, userPrompt, p, k);
    Untouched(oracle, round, userPrompt, p, k);
    assert before.responses[k..][0] == p.responses[k..][0];
    assert before.agents[k..][0] == p.agents[k..][0];
  }

  /** debate_self_refinement rewrites each slot k it reaches exactly once, at step k:
      the new answer is the reply to the call built from the list as it stands then
      (the answers of the agents before k already rewritten, the rest as they came
      in); the agent is replaced by its clone exactly when its answer was empty. */
  lemma SlotRule(oracle: Oracle, round: int, userPrompt: string, p: Panel, n: nat, k: nat)
    requires k < n <= |p.agents| && n <= |p.responses|
    ensures var final := RefinedUpTo(oracle, round, userPrompt, p, n);
            final.responses[k] == oracle.ask(
              if p.responses[k] != "" then Revise(round, k, p.agents[k], userPrompt, p.responses[k], Without(final.responses[..k] + p.responses[k..], k))
              else First(round, k, CloneOf(p.agents[k]), "", userPrompt))
    ensures RefinedUpTo(oracle, round, userPrompt, p, n).agents[k] == (if p.responses[k] != "" then p.agents[k] else CloneOf(p.agents[k]))
  {
    var final := RefinedUpTo(oracle, round, userPrompt, p, n);
    var before := RefinedUpTo(oracle, round, userPrompt, p, k);
    var after := RefinedUpTo(oracle, round, userPrompt, p, k + 1);
    StepAt(oracle, round, userPrompt, p, k);
    BeforeStep(oracle, round, userPrompt, p, n, k);
    var call := if p.responses[k] != "" then Revise(round, k, p.agents[k], userPrompt, p.responses[k], Without(final.responses[..k] + p.responses[k..], k))
                else First(round, k, CloneOf(p.agents[k]), "", userPrompt);
    assert SlotCall(round, userPrompt, before, k) == call;
    Settled(oracle, round, userPrompt, p, k + 1, n);
    assert final.responses[k] == after.responses[k] by {
      assert final.responses[..k + 1][k] == after.responses[..k + 1][k];
    }
    assert final.agents[k] == after.agents[k] by {
      assert final.agents[..k + 1][k] == after.agents[..k + 1][k];
    }
  }

  /** Just before step k, the answers are the final ones below k and the incoming
      ones from k on. */
  lemma BeforeStep(oracle: Oracle, round: int, userPrompt: string, p: Panel, n: nat, k: nat)
    requires k < n <= |p.agents| && n <= |p.responses|
    ensures RefinedUpTo(oracle, round, userPrompt, p, k).responses ==
            RefinedUpTo(oracle, round, userPrompt, p, n).responses[..k] + p.responses[k..]
  {
    var before := RefinedUpTo(oracle, round, userPrompt, p, k);
    Untouched(oracle, round, userPrompt, p, k);
    Settled(oracle, round, userPrompt, p, k, n);
    assert before.responses == before.responses[..k] + before.responses[k..];
  }

  /** The rewrite keeps both lists' lengths, and a full panel is rewritten in all
      AGENTS_NO slots. */
  lemma FullPanelRefined(oracle: Oracle, round: int, userPrompt: string, p: Panel)
    requires |p.agents| >= AgentsNo && |p.responses| >= AgentsNo
    ensures SlotsReached(p) == AgentsNo
    ensures var q := RefinedUpTo(oracle, round, userPrompt, p, AgentsNo);
            |q.agents| == |p.agents| && |q.responses| == |p.responses| && q.responses[AgentsNo..] == p.responses[AgentsNo..]
  {
    var q := RefinedUpTo(oracle, round, userPrompt, p, AgentsNo);
    Untouched(oracle, round, userPrompt, p, AgentsNo);
  }

  // ------------------------------------------------------------ debate_on_k_solutions

  /** The first exception get_discussion_prompt_k_solutions raises on the current
      candidate list: it reads entries 0 .. AGENTS_NO-1 and the time-complexity
      label of each non-empty one. */
  function ChoicePromptError(host: Host, current: seq<string>, j: nat): (e: Option<PyError>)
    ensures j <= |current| < AgentsNo ==> e.Some?
    ensures j < AgentsNo && e.None? ==> |current| >= AgentsNo
    decreases AgentsNo - j
  {
    if j >= AgentsNo then None
    else if j >= |current| then Some(IndexError)
    else if current[j] != "" && ExtractTimeComplexity(host, current[j]).Err? then Some(ExtractTimeComplexity(host, current[j]).error)
    else ChoicePromptError(host, current, j + 1)
  }

  /** The choice loop from slot i on: every agent answers a prompt built from the
      candidate list as updated by the agents before it. */
  function ChooseFrom(oracle: Oracle, host: Host, round: int, userPrompt: string, agents: seq<Agent>, local: seq<string>, i: nat)
    : (r: Result<seq<string>>)
    ensures i < AgentsNo && r.Ok? ==> |r.value| == |local| && |local| >= AgentsNo
    decreases AgentsNo - i
  {
    if i >= AgentsNo then Ok(local)
    else
      match ChoicePromptError(host, local, 0)
      case Some(e) => Err(e)
      case None =>
        if i >= |agents| then Err(IndexError)
        else ChooseFrom(oracle, host, round, userPrompt, agents, local[i := oracle.ask(Choose(round, i, agents[i], userPrompt, local))], i + 1)
  }

  /** How many candidates the copy loop writes over the caller's answers before it
      stops: it reads k[i], writes responses[i], then reads the i-th score. */
  function CopiedCount(k: seq<string>, responses: seq<string>, scores: seq<int>): (w: nat)
    ensures w <= AgentsNo && w <= |k| && w <= |responses| && w <= |scores| + 1
  {
    var m := if |k| < |responses| then |k| else |responses|;
    var m' := if m < |scores| + 1 then m else |scores| + 1;
    if m' < AgentsNo then m' else AgentsNo
  }

  /** The caller's answers after the copy loop. */
  function Copied(k: seq<string>, responses: seq<string>, scores: seq<int>): seq<string>
  {
    var w := CopiedCount(k, responses, scores);
    k[..w] + responses[w..]
  }

  predicate CopyCompletes(k: seq<string>, responses: seq<string>, scores: seq<int>)
  {
    |k| >= AgentsNo && |responses| >= AgentsNo && |scores| >= AgentsNo
  }

  /** The list debate_on_k_solutions returns, or the exception it raises. */
  function KChoice(oracle: Oracle, host: Host, round: int, k: seq<string>, userPrompt: string,
                   responses: seq<string>, scores: seq<int>, agents: seq<Agent>): Result<seq<string>>
  {
    if !CopyCompletes(k, responses, scores) then Err(IndexError)
    else ChooseFrom(oracle, host, round, userPrompt, agents, Dedup(Copied(k, responses, scores)), 0)
  }

  /** The copy loop stops at the first of AGENTS_NO, the end of k, the end of the
      answers, or one past the end of the scores. */
  lemma CopyStopsAt(k: seq<string>, responses: seq<string>, scores: seq<int>, w: nat)
    requires w <= AgentsNo && w <= |k| && w <= |responses| && w <= |scores| + 1
    requires w == AgentsNo || w == |k| || w == |responses| || w == |scores| + 1
    ensures Copied(k, responses, scores) == k[..w] + responses[w..]
    ensures CopyCompletes(k, responses, scores) <==> w == AgentsNo && w <= |scores|
  {
  }

  /** The copy loop of debate_on_k_solutions: k[i] overwrites the caller's i-th
      answer and the i-th score is read, for i below AGENTS_NO; `ok` is false when
      a list ran out (IndexError). */
  method CopyCandidates(kCandidatesChosen: seq<string>, responses: array<string>, readabilityComplexity: seq<int>)
    returns (ok: bool)
    modifies responses
    ensures responses[..] == Copied(kCandidatesChosen, old(responses[..]), readabilityComplexity)
    ensures ok <==> CopyCompletes(kCandidatesChosen, old(responses[..]), readabilityComplexity)
  {
    ghost var original := responses[..];
    for i := 0 to AgentsNo
      invariant i <= |kCandidatesChosen| && i <= responses.Length && i <= |readabilityComplexity|
      invariant forall j :: 0 <= j < i ==> responses[j] == kCandidatesChosen[j]
      invariant forall j :: i <= j < responses.Length ==> responses[j] == original[j]
    {
      if i >= |kCandidatesChosen| || i >= responses.Length {
        CopyStopsAt(kCandidatesChosen, original, readabilityComplexity, i);
        CopiedPrefix(kCandidatesChosen, original, responses[..], i);
        return false;
      }
      responses[i] := kCandidatesChosen[i];
      if i >= |readabilityComplexity| {
        CopyStopsAt(kCandidatesChosen, original, readabilityComplexity, i + 1);
        CopiedPrefix(kCandidatesChosen, original, responses[..], i + 1);
        return false;
      }
    }
    CopyStopsAt(kCandidatesChosen, original, readabilityComplexity, AgentsNo);
    CopiedPrefix(kCandidatesChosen, original, responses[..], AgentsNo);
    return true;
  }

  /** A list that agrees with k below w and with the original from w on is the
      original with its first w entries taken from k. */
  lemma CopiedPrefix(k: seq<string>, original: seq<string>, now: seq<string>, w: nat)
    requires w <= |k| && w <= |original| && |now| == |original|
    requires forall j :: 0 <= j < w ==> now[j] == k[j]
    requires forall j :: w <= j < |now| ==> now[j] == original[j]
    ensures now == k[..w] + original[w..]
  {
  }

  /** The choice loop of debate_on_k_solutions over the deduplicated candidates. */
  method ChooseAmong(oracle: Oracle, host: Host, round: int, userPrompt: string, agents: seq<Agent>, candidates: seq<string>)
    returns (r: Result<seq<string>>)
    ensures r == ChooseFrom(oracle, host, round, userPrompt, agents, candidates, 0)
  {
    var local := candidates;
    for i := 0 to AgentsNo
      invariant ChooseFrom(oracle, host, round, userPrompt, agents, local, i) == ChooseFrom(oracle, host, round, userPrompt, agents, candidates, 0)
    {
      var e := ChoicePromptError(host, local, 0);
      if e.Some? {
        return Err(e.value);
      }
      if i >= |agents| {
        return Err(IndexError);
      }
      local := local[i := oracle.ask(Choose(round, i, agents[i], userPrompt, local))];
    }
    return Ok(local);
  }

  /** debate_on_k_solutions: the k candidates overwrite the caller's answers, the
      deduplicated list is debated, and the list the agents produced is returned.
      The score dict it builds only ever contributes its keys 0, 1, 2 as labels. */
  method DebateOnKSolutions(oracle: Oracle, host: Host, round: int, kCandidatesChosen: seq<string>, userPrompt: string,
                            responses: array<string>, readabilityComplexity: seq<int>, agents: seq<Agent>)
    returns (r: Result<seq<string>>)
    modifies responses
    ensures responses[..] == Copied(kCandidatesChosen, old(responses[..]), readabilityComplexity)
    ensures r == KChoice(oracle, host, round, kCandidatesChosen, userPrompt, old(responses[..]), readabilityComplexity, agents)
  {
    var ok := CopyCandidates(kCandidatesChosen, responses, readabilityComplexity);
    if !ok {
      return Err(IndexError);
    }
    var local := RemoveDuplicates(responses[..]);
    r := ChooseAmong(oracle, host, round, userPrompt, agents, local);
  }

  /** What a successful k-solution step means for a panel of AGENTS_NO answers: the
      caller's answers become the first AGENTS_NO candidates, those candidates are
      pairwise different, and AGENTS_NO answers come back. An empty candidate list
      raises IndexError at once. */
  lemma KChoiceShape(oracle: Oracle, host: Host, round: int, k: seq<string>, userPrompt: string,
                     responses: seq<string>, scores: seq<int>, agents: seq<Agent>)
    requires |responses| == AgentsNo
    ensures k == [] ==> KChoice(oracle, host, round, k, userPrompt, responses, scores, agents) == Err(IndexError)
    ensures CopyCompletes(k, responses, scores) ==> Copied(k, responses, scores) == k[..AgentsNo]
    ensures KChoice(oracle, host, round, k, userPrompt, responses, scores, agents).Ok? ==>
              && CopyCompletes(k, responses, scores)
              && |KChoice(oracle, host, round, k, userPrompt, responses, scores, agents).value| == AgentsNo
              && NoRepeats(k[..AgentsNo])
              && |Distinct(k[..AgentsNo])| == AgentsNo
  {
    if CopyCompletes(k, responses, scores) {
      var c := Copied(k, responses, scores);
      assert c == k[..AgentsNo];
      var r := KChoice(oracle, host, round, k, userPrompt, responses, scores, agents);
      if r.Ok? {
        DedupCard(c);
        DistinctAtMost(c);
        ThreeDistinct(c);
      }
    }
  }
}
