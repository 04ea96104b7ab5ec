/** The agents of a debate and the calls made to them. Every call to a language
    model is a question put to an oracle: the oracle may answer each call with any
    string, and the call records the round, the slot and everything the prompt is
    built from, so two different calls may be answered differently. */
module Agents {
  import opened Py

  /** A language-model handle: the identifier its model info reports (which may be
      absent) and its sampling temperature. */
  datatype Agent = Agent(identifier: Option<string>, temperature: real)

  /** The temperature a regenerating clone is created with. */
  const CloneTemperature: real := 0.5

  /** get_clone_agent(extract_identifier(get_model_info(a)), 0.5): a fresh model of
      the same type at the raised temperature. */
  function CloneOf(a: Agent): (c: Agent)
    ensures c.identifier == a.identifier && c.temperature == CloneTemperature
  {
    Agent(a.identifier, CloneTemperature)
  }

  /** One question put to a language model. */
  datatype Call =
    /** get_first_response: an answer from scratch (round 0 for the opening answers). */
    | First(round: int, slot: nat, agent: Agent, fewShot: string, userPrompt: string)
    /** get_agreement / get_refined_agreement on a numbered list of the current
        solutions and their readability scores: the reply is meant to be a number. */
    | Ballot(round: int, slot: nat, agent: Agent, userPrompt: string, solutions: seq<string>, scores: seq<int>)
    /** get_response on get_discussion_prompt: revise `own` in view of `others`. */
    | Revise(round: int, slot: nat, agent: Agent, userPrompt: string, own: string, others: seq<string>)
    /** get_response on get_discussion_prompt_k_solutions: pick among the k candidates. */
    | Choose(round: int, slot: nat, agent: Agent, userPrompt: string, candidates: seq<string>)
    /** get_agreement on a feedback prompt: does the agent want to improve `own`? */
    | Review(round: int, slot: nat, agent: Agent, userPrompt: string, own: string, others: seq<string>)

  /** The language models and the random generator of a run. */
  datatype Oracle = Oracle(
    ask: Call -> string,   // the reply content of a model call
    pick: int -> nat       // the index random.choice draws in a given round
  )
}
