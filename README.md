# A verified model of a multi-agent code-generation debate

The system lets several language-model agents debate a code-generation task.
Each agent writes an answer, a JSON object with `imports`, `code`,
`time_complexity` and sometimes `test_inputs`. The agents score the answers
for readability (cognitive complexity) and vote on the best one. When they
disagree, they revise their answers or narrow the debate to a few candidates.
The debate ends when the votes agree, when candidates are judged equivalent,
or when the rounds run out. In the last case majority voting decides.

The model covers these parts:

- The three-agent strategies of `Code/Debate_strategies.py` (modules `Strategies`, `Refinement`, `Voting`, `Rounds`).
- The helpers of `Code/utility_function.py` (module `Utility`).
- The metrics of `Code/metrics.py` (module `Metrics`).
- The two-agent protocols of `Code/main.py`, `Code/main_test_inputs.py` and `Code/main2_round.py` (module `Protocols`).

Python built-ins are modelled in `Py`: `int()`, `str()`, `str.lower`, `in` on strings, negative list indices and `str.replace`. The foreign libraries are function fields of a `Host` value: `json.loads`, `ast.parse`, the cognitive-complexity node scorer, `astunparse`, `is_decorator` and `str()` of decoded values. Every language-model call is a question to an `Oracle` (module `Agents`). The question records the round, the agent's slot, the agent, and everything its prompt is built from. `random.choice` is the oracle's `pick`.

Each strategy is written twice:

- as a round function plus a recursive loop function, which is the specification;
- as imperative methods over the caller's agent array and a local answer array, as in the source.

Each method is proved to return what its loop function returns, and to leave the caller's agents as the loop function says.

The model follows the code as written, crashes included:

- `majority_voting`'s failure result `"-1"` is a str, and using it as a list index (`response["-1"]`) raises `TypeError`.
- `equals_cognitive_complexity` is given a list at `Code/Debate_strategies.py:406` and raises `AttributeError`.
- `debate_on_k_solutions` raises `IndexError` when it gets no candidates, which `simulate_complete_round` does in its first split round.
- A loop that never runs leaves `feedback` unbound.
- `Code/main_test_inputs.py:73-75` calls `get_discussion_feedback_prompt_test_inputs` with six arguments. `Code/LLM_definition.py:75-76` declares seven, with no default for `AGENTS_NO`. So every measured round that gets through both measurements raises `TypeError` before any agent is asked.

The lemmas show what these crashes mean for each strategy.

## Model

| member | source | states |
|---|---|---|
| Voting.ParsedVotes | Code/Debate_strategies.py:300-307 | the votes int() accepts, one per entry, or none at all once an entry is rejected |
| Voting.StrictWinnerUnique | Code/Debate_strategies.py:316-325 | at most one index can hold strictly more votes than every other |
| Voting.TallyVotes | Code/Debate_strategies.py:300-307 | the counting loop succeeds exactly when every vote parses, and its dict counts each index's votes with keys in first-vote order |
| Voting.ScanVotes | Code/Debate_strategies.py:312-322 | the scan finds the largest count, a key holding it, and how many keys hold it |
| Voting.TallyDecides | Code/Debate_strategies.py:316-327 | "exactly one key holds the largest count" is the same as "that key has a strict majority"; otherwise no index has one |
| Voting.TallyEmpty | Code/Debate_strategies.py:309-310 | the dict is empty exactly when no vote was cast |
| Voting.MajorityVoting | Code/Debate_strategies.py:292-327 | the result is the strict-majority index, or "-1" on a rejected vote, no votes, or a tie |
| Voting.WinnerIffStrictMajority | Code/Debate_strategies.py:292-327 | the result is index v exactly when every vote parses and v has a strict majority of them |
| Voting.NoWinnerCases | Code/Debate_strategies.py:300-327 | "-1" for no votes, for any unparsable vote wherever it stands, and for two indices sharing the largest count |
| Voting.ParsedVotesAbort | Code/Debate_strategies.py:301-307 | one vote int() rejects makes the whole tally fail |
| Voting.ParsedVotesFailFrom | Code/Debate_strategies.py:301-307 | a prefix that fails to parse makes the whole list fail |
| Voting.VotesAreParsedEntries | Code/Debate_strategies.py:301-304 | every counted index is the int() value of some entry |
| Voting.WinnerWasVoted | Code/Debate_strategies.py:316-325 | a winning index is the int() value of some vote |
| Voting.RepeatedVoteWins | Code/Debate_strategies.py:300-327 | with three ballots, an index named twice wins, with no range check |
| Voting.RepeatedIndexWins | Code/Debate_strategies.py:300-327 | the same, for the decimal spelling str() gives the indices |
| Voting.ParsedThree | Code/Debate_strategies.py:301-304 | three ballots a, a, b parse to n, n, m |
| Voting.TwoOfThree | Code/Debate_strategies.py:316-325 | n is the strict winner of the ballots n, n, m |
| Rounds.Returned | Code/Debate_strategies.py:105-109 | a computed answer is returned as a str; an error is raised |
| Rounds.OpeningResponses | Code/Debate_strategies.py:46-48 | one first answer per agent, asked in order; IndexError with too few agents |
| Rounds.Open | Code/Debate_strategies.py:46-48 | the opening loop returns exactly those answers |
| Rounds.Readability | Code/Debate_strategies.py:66-70 | an answer's score is the cognitive-complexity total of its decoded `code` field; otherwise the decoding, key or type error is raised |
| Rounds.ScoresUpTo | Code/Debate_strategies.py:66-71 | the first n answers' scores in order, or the first answer's error |
| Rounds.MeasureReadability | Code/Debate_strategies.py:66-71 | the scoring loop computes exactly those scores or raises that error |
| Rounds.ScoresFailFrom | Code/Debate_strategies.py:66-71 | once a prefix fails to score, every longer prefix fails with the same error |
| Rounds.CollectBallots | Code/Debate_strategies.py:92-93 | one ballot per agent, in order, on the same list of answers and scores |
| Agents.CloneOf | Code/Debate_strategies.py:245-248 | a regenerating clone keeps the model identifier and takes temperature 0.5 |
| Utility.SingleDistinct | Code/utility_function.py:88-92 | len(set(xs)) == 1 exactly when xs is non-empty and all its entries are equal |
| Utility.DedupElements | Code/utility_function.py:63-69 | remove_duplicates keeps every value of its input and repeats none |
| Utility.DedupOrder | Code/utility_function.py:63-69 | kept values appear in the order of their first occurrence |
| Utility.DedupOfNoRepeats | Code/utility_function.py:63-69 | a list without repeats comes back unchanged |
| Utility.DedupIdempotent | Code/utility_function.py:63-69 | removing duplicates twice is the same as once |
| Utility.NoRepeatsCard | Code/utility_function.py:63-69 | a list without repeats has as many distinct values as entries |
| Utility.DistinctAtMost | Code/utility_function.py:63-69 | a list has at most as many distinct values as entries |
| Utility.DedupCard | Code/utility_function.py:63-69 | the result has one entry per distinct value |
| Utility.SplitStaysSplit | Code/Debate_strategies.py:92-102 | once two different ballots are in the feedback list, adding more keeps at least two |
| Utility.ThreeDistinct | Code/Debate_strategies.py:274-285 | three entries have three distinct values exactly when no two are equal |
| Utility.RemoveDuplicates | Code/utility_function.py:63-69 | the loop with its explored set returns the first-occurrence deduplication |
| Utility.Range | Code/utility_function.py:39-42 | the list 0 .. n-1 |
| Utility.GetSetNumberSolutions | Code/utility_function.py:39-49 | the indices 0 .. n-1 without int(placeholder). An index out of range leaves the list whole. A placeholder int() rejects raises only when n > 0 |
| Utility.TimeLabels | Code/utility_function.py:83-85 | each solution's time-complexity label, or the first failing solution's error |
| Utility.EqualsTimeComplexity | Code/utility_function.py:83-92 | true exactly when there is at least one solution and all lowercased labels are equal |
| Utility.EqualsCognitiveComplexity | Code/utility_function.py:106-110 | true exactly when a dict's values are all one value; false for an empty dict; AttributeError for a list |
| Utility.SingleValue | Code/utility_function.py:106-110 | a map has exactly one value when it is non-empty and all its values are equal |
| Utility.GetRandomElement | Code/utility_function.py:126-128 | None exactly for an empty list, otherwise a member of the list |
| Utility.KResponses | Code/utility_function.py:143-149 | response[int(i)] for every vote in order, repeats kept, or the error of a vote that fails |
| Utility.KResponsesFirstFailure | Code/utility_function.py:145-147 | the error raised is that of the first failing vote |
| Utility.KResponsesAllFound | Code/utility_function.py:145-149 | when every vote selects an answer, the result is those answers |
| Utility.GetKResponses | Code/utility_function.py:143-149 | the loop computes exactly that list or raises that error |
| Utility.GetFormattedCodeSolution | Code/utility_function.py:162-171 | imports, a blank line, then code; code alone for empty imports; None when a key is missing; a decoding error for undecodable text; for a decoded list or string, None unless it holds both keys (as members or substrings), then TypeError; TypeError for any other non-dict value |
| Utility.GetFeedbackValue | Code/utility_function.py:184-201 | for a dict, or text that decodes to a dict: its `response` field when that is an int, otherwise None; None for undecodable text and for other inputs; decoded lists and strings give None without "response" and TypeError with it; only non-dict decoded text raises |
| Utility.CountTestResults | Code/utility_function.py:319-334 | run = passed + failed; failed is failures plus errors, else the errors-only count, else 0; passed exactly when none failed |
| Utility.PassedWithoutFailureReport | Code/utility_function.py:319-334 | output with no failure report counts as passed even with no test run; a reported failure fails |
| Metrics.FirstFunctionDef | Code/metrics.py:133 | the position of the first top-level `def`; none exactly when there is no such `def` |
| Metrics.StatementRows | Code/metrics.py:145-156 | one row per statement of the body, in order |
| Metrics.GetCognitiveComplexity | Code/metrics.py:109-160 | the method computes the specified score, diagnostics and errors included |
| Metrics.ScoreBody | Code/metrics.py:141-160 | the accumulating loop yields the rows plus a "Total" row and the total |
| Metrics.SumOfStatementRowsNonNegative | Code/metrics.py:145-159 | a genuine total is never negative |
| Metrics.ScoreShape | Code/metrics.py:141-160 | one row per statement of the first `def` (node score plus recursion bonus, unparsed text), then "Total", whose value is the sum |
| Metrics.SentinelExactlyOnFailure | Code/metrics.py:127-135 | the total is -1 exactly on a syntax error or when there is no `def`, with the single diagnostic row |
| Metrics.BonusAtMostOne | Code/metrics.py:149-156 | the recursion bonus is one point when the statement text contains `name(`, else nothing |
| Metrics.FirstFunctionDefAppend | Code/metrics.py:133 | statements after the first `def` do not move it |
| Metrics.OnlyFirstDefinitionScored | Code/metrics.py:133-160 | whatever follows the first `def` does not change the score |
| Metrics.ExtractTimeComplexity | Code/metrics.py:48-50 | the lowercased `time_complexity` field when it is a str; decoding, key or attribute errors otherwise |
| Metrics.ArgsOf | Code/metrics.py:27-29 | the `args` of every test case in order, or the first failing lookup's error |
| Metrics.ExtractInputValues | Code/metrics.py:14-32 | the loop returns one `args` entry per test case or raises the first lookup error |
| Metrics.ArgsFailFrom | Code/metrics.py:27-29 | a failing lookup after successful ones is the error of the whole extraction |
| Metrics.ArgsFailPrefix | Code/metrics.py:27-29 | a prefix that fails decides the whole extraction |
| Refinement.RefineSlot | Code/Debate_strategies.py:236-249 | rewriting one slot keeps both lists' lengths |
| Refinement.RefinedUpTo | Code/Debate_strategies.py:236-254 | rewriting the first n slots keeps both lists' lengths |
| Refinement.SlotsReached | Code/Debate_strategies.py:236-241 | the loop reaches AGENTS_NO slots exactly when both lists are long enough, and fewer otherwise |
| Refinement.DebateSelfRefinement | Code/Debate_strategies.py:227-254 | the in-place loop leaves both lists as the specification says; it reports IndexError exactly for a short list |
| Refinement.Untouched | Code/Debate_strategies.py:236-249 | slots from k on are unchanged until step k |
| Refinement.Settled | Code/Debate_strategies.py:236-249 | slots before k keep the value step k left them |
| Refinement.StepAt | Code/Debate_strategies.py:236-249 | step k writes slot k from its incoming value |
| Refinement.SlotRule | Code/Debate_strategies.py:236-249 | a non-empty answer is revised seeing the earlier slots' revisions and the later slots' old answers; an empty answer is regenerated by the agent's clone; each slot is rewritten once |
| Refinement.FullPanelRefined | Code/Debate_strategies.py:234-254 | a full panel is rewritten in all AGENTS_NO slots, with the entries past them unchanged |
| Refinement.ChoicePromptError | Code/LLM_definition.py:158-165 | building the k-solution prompt reads AGENTS_NO entries (IndexError on a shorter list) and each non-empty entry's time label |
| Refinement.ChooseFrom | Code/Debate_strategies.py:280-285 | the choice loop keeps the list's length, which must be at least AGENTS_NO |
| Refinement.CopiedCount | Code/Debate_strategies.py:268-272 | the copy loop stops within every list it reads |
| Refinement.CopyStopsAt | Code/Debate_strategies.py:268-272 | where the copy loop stops determines the answers it leaves, and whether it completes |
| Refinement.CopyCandidates | Code/Debate_strategies.py:268-272 | the candidates overwrite the caller's answers up to the stop point; IndexError exactly when a list runs out |
| Refinement.ChooseAmong | Code/Debate_strategies.py:278-285 | the choice loop computes the specified choices |
| Refinement.DebateOnKSolutions | Code/Debate_strategies.py:258-288 | the caller's answers end up overwritten as specified, and the result is the choice over the deduplicated candidates |
| Refinement.KChoiceShape | Code/Debate_strategies.py:266-288 | no candidates raise IndexError. A successful step had AGENTS_NO pairwise different candidates, which replaced the caller's answers, and returns AGENTS_NO entries |
| Strategies.AgreedOn | Code/Debate_strategies.py:105-109 | the agreed value selects an answer by int(); its errors are raised |
| Strategies.SelfRefinementRound | Code/Debate_strategies.py:59-118 | a round that goes on keeps three answers and advances the counter by one |
| Strategies.SelfRefinementStep | Code/Debate_strategies.py:62-116 | one pass of the loop does what the round function says to the caller's agents and the answers |
| Strategies.DebateWithSelfRefinement | Code/Debate_strategies.py:32-122 | the strategy returns, and leaves the agents, as its loop function says |
| Strategies.LateRoundsDisagree | Code/Debate_strategies.py:57-102 | once the accumulated ballots split, the debate never ends in agreement |
| Strategies.SelfRefinementAgreesOnlyFirst | Code/Debate_strategies.py:55-122 | agreement happens only in round 1; with max_rounds below 1, `response["-1"]` raises TypeError |
| Strategies.KSolutionsDecide | Code/Debate_strategies.py:187-215 | a round that goes on keeps three answers and advances the counter by two |
| Strategies.KSolutionsRound | Code/Debate_strategies.py:145-217 | the same for the whole round, scores and ballots included |
| Strategies.KSolutionsStep | Code/Debate_strategies.py:146-217 | one pass of the loop does what the round function says |
| Strategies.SimulateRoundKSolutions | Code/Debate_strategies.py:125-221 | the strategy returns, and leaves the agents, as its loop function says |
| Strategies.KSolutionsAfterSplit | Code/Debate_strategies.py:202-215 | after a split vote the k step raises or goes on to self-refinement on the ballots that overwrote the answers; a two-way split always raises |
| Strategies.KSolutionsWithoutRounds | Code/Debate_strategies.py:144-221 | with max_rounds below 1 the unbound feedback raises UnboundLocalError |
| Strategies.CompleteChoice | Code/Debate_strategies.py:418-434 | the closing k step, when it goes on, keeps three answers and advances the counter by one |
| Strategies.CompleteDecide | Code/Debate_strategies.py:384-434 | the same after the ballots are in |
| Strategies.CompleteRound | Code/Debate_strategies.py:356-434 | the same for the whole round |
| Strategies.CompleteChoiceStep | Code/Debate_strategies.py:418-427 | the closing k step does what CompleteChoice says |
| Strategies.CompleteDecideStep | Code/Debate_strategies.py:384-434 | the part after the ballots does what CompleteDecide says |
| Strategies.CompleteStep | Code/Debate_strategies.py:357-434 | one pass of the loop does what the round function says |
| Strategies.SimulateCompleteRound | Code/Debate_strategies.py:343-438 | the strategy returns, and leaves the agents, as its loop function says |
| Strategies.CompleteFirstSplit | Code/Debate_strategies.py:401-418 | before two rounds without agreement, a split vote sends no candidates to the k step, which raises IndexError |
| Strategies.EquivalenceRaises | Code/Debate_strategies.py:403-406 | with equal time labels, the readability test gets the score list and raises AttributeError |
| Strategies.CompleteRoundEndsInRoundOne | Code/Debate_strategies.py:343-438 | the strategy never passes round 1 and never draws among equivalent solutions; with max_rounds from 1 on it never reaches majority voting, and below 1 it raises UnboundLocalError |
| Strategies.RefinementPromptShape | Code/Debate_strategies.py:511-513 | the prompt is the template with only the evaluator's feedback filled in |
| Strategies.RefinementPromptKeepsPlaceholders | Code/Debate_strategies.py:454-513 | the user-prompt and previous-code placeholders stay in the prompt, next to the feedback |
| Strategies.AsStr | Code/Debate_strategies.py:517-521 | what after_evaluation_debate returns is a str |
| Strategies.AfterEvaluationDebate | Code/Debate_strategies.py:453-523 | "0", "1" and every other value select the three strategies, run on the refinement prompt |
| Strategies.AfterEvaluationFacts | Code/Debate_strategies.py:453-523 | the max_rounds argument changes nothing; the result is a str; strategies other than "0"/"1" never pass round 1 nor reach majority voting |
| Protocols.ImprovableIndices | Code/main.py:50-53 | the listed slots are below n and in increasing order |
| Protocols.ImprovableIndicesMeaning | Code/main.py:50-53 | a slot is listed exactly when its reply says "yes" or says neither "yes" nor "no"; none is listed exactly when every reply says "no" and not "yes" |
| Protocols.ImprovableAgents | Code/main.py:50-53 | the loop collects exactly those slots |
| Protocols.CollectReviews | Code/main.py:30-42 | one review per agent, of its own answer against the other answers |
| Protocols.ReviseInTurn | Code/main.py:63-67 | the revision loop rewrites the listed slots in turn, each seeing the answers as they stand |
| Protocols.RevisedPair | Code/main.py:49-67 | the improvable agents' revisions keep two answers |
| Protocols.PairRevisionRule | Code/main.py:63-67 | an improvable first agent revises against the second's answer; an improvable second agent revises against the first's answer as just revised; the others keep theirs |
| Protocols.PairOrder | Code/main.py:50-53 | the improvable slots of a pair, spelled out |
| Protocols.Settle | Code/main.py:56-69 | once the reviews are in, a round either ends with the first answer or keeps two answers and advances the counter by one |
| Protocols.SettleStep | Code/main.py:49-69 | the improvability and revision loops do what Settle says |
| Protocols.MainRound | Code/main.py:27-69 | a round that goes on keeps two answers and advances the counter by one |
| Protocols.SimulateRound | Code/main.py:11-76 | the protocol returns what its loop function says |
| Protocols.MainOutcomes | Code/main.py:11-76 | it raises only with fewer than two agents (IndexError), and otherwise returns an answer or -1 |
| Protocols.MainFromReturns | Code/main.py:27-76 | from any round on, the loop returns an answer or -1 |
| Protocols.MainAgreementRule | Code/main.py:50-60 | a round ends the debate exactly when both replies say "no" and not "yes", and then returns the first answer |
| Protocols.RestlessAgentsFail | Code/main.py:26-76 | agents that always want to improve never agree; the protocol returns -1 |
| Protocols.RestlessFrom | Code/main.py:27-76 | the same from any round on |
| Protocols.Timing | Code/main_test_inputs.py:39-42 | an answer's time is the measurement on its decoded JSON and extracted inputs; otherwise the decoding or extraction error |
| Protocols.TimesUpTo | Code/main_test_inputs.py:36-42 | the first n answers' times in order, or the first error |
| Protocols.TimesFailFrom | Code/main_test_inputs.py:39-42 | once a prefix fails to be measured, longer prefixes fail with the same error |
| Protocols.MeasureTimes | Code/main_test_inputs.py:36-42 | the time loop computes exactly those times or raises that error |
| Protocols.MeasuredRound | Code/main_test_inputs.py:34-75 | every pass raises an exception, so no pass reaches the reviews or returns an answer |
| Protocols.MeasuredStep | Code/main_test_inputs.py:34-75 | the time and readability loops, then the failing call, do what the round function says |
| Protocols.SimulateMeasuredRound | Code/main_test_inputs.py:16-75 | the protocol returns what its specification function says |
| Protocols.MeasuredNeverAnswers | Code/main_test_inputs.py:16-118 | it never returns an answer or -1: None exactly with two agents and max_rounds below 1, an exception otherwise; too few agents raise IndexError |
| Protocols.MeasuredRaisesTypeError | Code/main_test_inputs.py:31-75 | with two agents and at least one round, the first measurement error, or TypeError once both measurements succeed |
| Protocols.DuelRound | Code/main2_round.py:25-52 | a round that goes on advances the counter by one |
| Protocols.DuelStep | Code/main2_round.py:25-52 | one pass of the loop does what the round function says |
| Protocols.SimulateDuel | Code/main2_round.py:7-58 | the protocol ends as its loop function says |
| Protocols.DuelEndsAgreedIffInTime | Code/main2_round.py:21-58 | it ends by agreement exactly when it ends within max_rounds; otherwise one round past the limit, or in round 1 |
| Protocols.SilentReviewsKeepAnswers | Code/main2_round.py:37-52 | replies with neither "yes" nor "no" change nothing; the rounds run out with the opening answers |
| Protocols.MixedRepliesDiffer | Code/main2_round.py:37-51 | replies with both "yes" and "no" end this protocol but make Code/main.py's agents revise |
| Protocols.FailureTest | Code/main.py:131-132 | the caller's "-1" test flags the -1 result, and also any answer whose text contains "-1"; it does not flag None |

## Left out

- Printing and the tabulated output: `print`, `tabulate` and `print_cognitive_complexity_details` only display values.
- Prompt texts: the prompt builders in `Code/LLM_definition.py` and `Code/debate_prompt_attempts.py` are not modelled as text. Each model call records the data its prompt is built from. Their only modelled effects are the exceptions raised while building the prompt (`Refinement.ChoicePromptError`). `Code/debate_prompt_attempts.py` is not part of this model.
- Language-model replies, `get_clone_agent`, `get_model_info` and `extract_identifier`: the replies are the oracle's answers, and a clone is `Agents.CloneOf`.
- `random.choice`: it is the oracle's `pick`, reduced modulo the list length.
- The refinement template of `after_evaluation_debate`: it is abbreviated to its headings, its three placeholders and the schema's opening braces. The instruction prose is left out. The lemmas about the prompt concern this abbreviation, in which the placeholders are the template's only braces.
- `calculate_time_complexity` (`Code/metrics.py:53-98`): it runs the answer's code with `exec` and `timeit`, so it is the `timing` parameter of the measured protocol.
- The import of `calulate_time_complexity` in `Code/main_test_inputs.py:4`: `Code/metrics.py` defines no such name, so the module fails on import. The model runs the body as if the name were `calculate_time_complexity`.
- Other unresolved imports: several imports name things the shown modules do not define.
  - `Code/main.py` and `Code/main2_round.py` import `getCloneAgent`, `getDiscussionPrompt` and `getDiscussionFeedbackPrompt`, and `Code/main.py` also imports `get_response_to_evaluate`. `Code/LLM_definition.py` defines none of these.
  - `Code/Debate_strategies.py` imports `get_multiple_choice_numbers_prompt`, which `Code/LLM_definition.py` does not define.
  - `Code/LLM_definition.py:10` imports `schema_complexity` and `schema_inputs`. `Code/response_JSON_schema.py` defines only `schema` and `evaluation_schema`, so every module that imports `Code/LLM_definition.py` fails on import.

  The model treats these names as the calls they stand for.
- The decorator branch of `get_cognitive_complexity` (`Code/metrics.py:138-139`): it passes an AST node back into the function, where `getsource` raises. It is modelled as that `TypeError`.
- The score dict of `debate_on_k_solutions`: passing it through `remove_duplicates` turns it into its keys 0, 1, 2, and those keys only label the prompt. Its values are not modelled.
- The module-level agents `model1` and `model2` of `Code/main2_round.py`: they answer the opening calls. They are separate parameters (`opener1`, `opener2`) of `Protocols.SimulateDuel`.
- `Protocols.SimulateDuel` returns a record of the printed ending (agreement, or the partial answers). The function itself returns None.
- File, process and network work: `save_and_test_code`, `evaluate_code_with_tests` (except its counting block), `save_task_data_to_csv` and the SonarQube helpers. These write files, run subprocesses or call a server.
- The reviews and revisions of `Code/main_test_inputs.py` (lines 78-118): the prompt call at lines 73-75 always raises first, so they are unreachable and are not modelled. `Protocols.SimulateMeasuredRound` writes the `while` of line 32 as an `if`, because its first pass always ends the function.
- Voting.MajorityVoting: `Py.ParseInt` accepts only the ASCII digits, while Python's `int()` also accepts the decimal digits of other scripts. A ballot such as `"١"` (Arabic-Indic one) is 1 in Python but rejected here.
- Metrics.ExtractTimeComplexity: `Py.Lower` folds only the ASCII capitals, while Python's `str.lower()` folds every cased character. A label with non-ASCII capitals keeps them here.
- Protocols.Improvable: the same ASCII `Py.Lower` is used for the "yes"/"no" tests. No non-ASCII character lowers to y, e, s, n or o, so the tests give the same answers; this is argued here, not proved.
- Integer widths: Python ints are unbounded, so vote counts, rounds and scores are `int`/`nat` with no wrap-around.
