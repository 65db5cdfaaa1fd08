/**
 * The parts of INDRA's statements, agents and evidence that EMMAA looks at.
 * Hashes, agent lists, groundings and beliefs are computed by INDRA; here
 * they are fields whose values are given, not computed.
 */
module Indra {
  import opened Wrappers

  /**
   * An agent: its name, its database references and the namespace that
   * INDRA's `get_grounding()` picks for it (`None` when ungrounded).
   */
  datatype Agent = Agent(name: string, dbRefs: map<string, string>, groundingNs: Option<string>)

  /** A piece of evidence: its PMID and its text references (namespace to integer id). */
  datatype Evidence = Evidence(pmid: Option<string>, textRefs: map<string, int>)

  /**
   * A statement: its type name, its shallow hash (`get_hash()`), its full
   * hash (`get_hash(shallow=False)`), its `agent_list()` in role order (an
   * absent role is `None`), its evidence and its belief score.
   */
  datatype Statement = Statement(
    stype: string,
    shallowHash: int,
    fullHash: int,
    agents: seq<Option<Agent>>,
    evidence: seq<Evidence>,
    belief: real)

  /** The names of a statement's present agents. */
  function AgentNames(s: Statement): set<string>
  {
    set i | 0 <= i < |s.agents| && s.agents[i].Some? :: s.agents[i].value.name
  }

  /** `stmt.subj` of a two-role statement; `AttributeError` when there is none. */
  function Subj(s: Statement): Result<Agent>
  {
    if |s.agents| == 2 && s.agents[0].Some? then Ok(s.agents[0].value) else Err(AttributeError)
  }

  /** `stmt.obj` of a two-role statement; `AttributeError` when there is none. */
  function Obj(s: Statement): Result<Agent>
  {
    if |s.agents| == 2 && s.agents[1].Some? then Ok(s.agents[1].value) else Err(AttributeError)
  }
}
